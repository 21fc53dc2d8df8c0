/** The game loop's physics and pause control (neutron/game.hh). Each frame
    the game steps its planets unless time is stopped: a gravity pass in which
    every active planet is pulled by each strictly heavier active planet, one
    axis at a time; a collision pass over ordered pairs in which contact with
    the sun switches the other planet off and any other contact kicks both
    planets apart; and a final move of every planet. The T key stops and
    restarts time behind a 0.2 s debounce, and Escape ends the game.

    The planet map `std::map<Planet*, bool>` is a sequence of (planet, active)
    entries; the square root the collision kick takes is a parameter `root`,
    and distances are compared through their squares. */
module NeutronGame {
  import opened Vectors
  import opened NeutronImport
  import Reals
  import NeutronParticles

  const EarthMoonMass: int := 100
  const SunMass: int := 100000000
  const Gravitational: real := 6.674 / 100000000000.0

  /** The planets' states and their active flags, entry by entry. */
  datatype World = World(bodies: seq<PlanetState>, active: seq<bool>)

  predicate WellFormed(w: World) {
    |w.bodies| == |w.active|
  }

  /** Every mass can be divided by. */
  predicate Massive(w: World) {
    forall k :: 0 <= k < |w.bodies| ==> w.bodies[k].mass != 0
  }

  predicate IsSun(s: PlanetState) {
    s.mass as int == SunMass
  }

  // ---------------------------------------------------------------------
  // Gravity

  /** The `int` product of two masses, which wraps at 32 bits. */
  function WrapProduct(a: Int32, b: Int32): Int32 {
    var p := ((a as int) * (b as int)) % 0x1_0000_0000;
    (if p >= 0x8000_0000 then p - 0x1_0000_0000 else p) as Int32
  }

  /** An `int` read as the `u32` it is compared with. */
  function AsUnsigned(v: Int32): int {
    (v as int) % 0x1_0000_0000
  }

  /** The pair whose mass product equals `EARTH_MOON_MASS`. */
  predicate IsEarthMoonPair(a: PlanetState, b: PlanetState) {
    AsUnsigned(WrapProduct(a.mass, b.mass)) == EarthMoonMass
  }

  /** A planet is pulled by another only if both are active and the other
      is strictly heavier. */
  predicate PullsOn(w: World, k: nat, j: nat)
    requires WellFormed(w) && k < |w.bodies| && j < |w.bodies|
  {
    w.active[k] && w.active[j] && w.bodies[j].mass > w.bodies[k].mass
  }

  /** The square of the distance the pull divides by: the distance itself,
      or a hundredth of it for the earth-moon pair. */
  function PullDivisor(o: PlanetState, other: PlanetState): real {
    if IsEarthMoonPair(o, other) then Radicand(o, other) / 10000.0 else Radicand(o, other)
  }

  /** Two planets never pull across distance zero. */
  predicate GravityDefined(w: World) {
    WellFormed(w) &&
    forall k, j :: 0 <= k < |w.bodies| && 0 <= j < |w.bodies| && PullsOn(w, k, j) ==>
      Radicand(w.bodies[k], w.bodies[j]) != 0.0
  }

  function Pull(o: PlanetState, other: PlanetState, time: real): real
    requires Radicand(o, other) != 0.0
  {
    (other.mass as real) * Gravitational / PullDivisor(o, other) * time
  }

  /** The sign rule of each axis: toward a strictly greater coordinate,
      away otherwise. */
  function Toward(there: real, here: real): real {
    if there > here then 1.0 else -1.0
  }

  /** The velocity change a planet receives from another, given both
      flags. */
  function PushOn(o: PlanetState, other: PlanetState, oActive: bool, otherActive: bool, time: real): Vec3
    requires oActive && otherActive && other.mass > o.mass ==> Radicand(o, other) != 0.0
  {
    if oActive && otherActive && other.mass > o.mass then
      Vec3(Pull(o, other, time) * Toward(other.pos.x, o.pos.x),
           Pull(o, other, time) * Toward(other.pos.y, o.pos.y),
           Pull(o, other, time) * Toward(other.pos.z, o.pos.z))
    else Zero
  }

  /** The velocity change planet j gives planet k. */
  function Push(w: World, k: nat, j: nat, time: real): Vec3
    requires GravityDefined(w) && k < |w.bodies| && j < |w.bodies|
  {
    PushOn(w.bodies[k], w.bodies[j], w.active[k], w.active[j], time)
  }

  /** A push reads masses and positions only. */
  lemma PushOnIgnoresVelocities(o: PlanetState, other: PlanetState, p: PlanetState, q: PlanetState, oActive: bool, otherActive: bool, time: real)
    requires o.mass == p.mass && o.pos == p.pos && other.mass == q.mass && other.pos == q.pos
    requires oActive && otherActive && other.mass > o.mass ==> Radicand(o, other) != 0.0
    ensures oActive && otherActive && other.mass > o.mass ==> Radicand(p, q) != 0.0
    ensures PushOn(o, other, oActive, otherActive, time) == PushOn(p, q, oActive, otherActive, time)
  {
    RadicandPositions(o, other, p, q);
  }

  /** Planet k's velocity after the pushes of planets 0 .. j-1. */
  function PulledVelocity(w: World, k: nat, j: nat, time: real): Vec3
    requires GravityDefined(w) && k < |w.bodies| && j <= |w.bodies|
  {
    if j == 0 then w.bodies[k].vel
    else Add(PulledVelocity(w, k, j - 1, time), Push(w, k, j - 1, time))
  }

  /** The first loop of `Step`. */
  function GravityPass(w: World, time: real): (r: World)
    requires GravityDefined(w)
    ensures WellFormed(r) && |r.bodies| == |w.bodies| && r.active == w.active
    ensures forall k :: 0 <= k < |w.bodies| ==> r.bodies[k] == w.bodies[k].(vel := r.bodies[k].vel)
  {
    World(seq(|w.bodies|, k requires 0 <= k < |w.bodies| => w.bodies[k].(vel := PulledVelocity(w, k, |w.bodies|, time))), w.active)
  }

  /** The sign and size of one push: nothing unless the pull applies (so
      equal masses exert nothing on each other); otherwise each component is
      plus or minus the pull, plus exactly when the other planet's coordinate
      is strictly greater. */
  lemma PushRule(w: World, k: nat, j: nat, time: real)
    requires GravityDefined(w) && k < |w.bodies| && j < |w.bodies|
    requires time > 0.0 && w.bodies[j].mass > 0
    ensures w.bodies[j].mass <= w.bodies[k].mass ==> Push(w, k, j, time) == Zero
    ensures !PullsOn(w, k, j) ==> Push(w, k, j, time) == Zero
    ensures PullsOn(w, k, j) ==>
              var p := Pull(w.bodies[k], w.bodies[j], time);
              var d := Push(w, k, j, time);
              p > 0.0 &&
              (d.x == p || d.x == -p) && (d.x > 0.0 <==> w.bodies[j].pos.x > w.bodies[k].pos.x) &&
              (d.y == p || d.y == -p) && (d.y > 0.0 <==> w.bodies[j].pos.y > w.bodies[k].pos.y) &&
              (d.z == p || d.z == -p) && (d.z > 0.0 <==> w.bodies[j].pos.z > w.bodies[k].pos.z)
  {
    if PullsOn(w, k, j) {
      var o := w.bodies[k];
      var other := w.bodies[j];
      PullDivisorPositive(o, other);
      Reals.PullPositive(other.mass as real, Gravitational, PullDivisor(o, other), time);
    }
  }

  lemma PullDivisorPositive(o: PlanetState, other: PlanetState)
    requires Radicand(o, other) != 0.0
    ensures PullDivisor(o, other) > 0.0
  {
    RadicandNonNegative(o, other);
    if IsEarthMoonPair(o, other) {
      Reals.QuotientPositive(Radicand(o, other), 10000.0);
    }
  }

  /** Planet k keeps its velocity through the pushes 0 .. j-1 when none of
      them applies. */
  lemma {:induction false} UnpulledVelocity(w: World, k: nat, j: nat, time: real)
    requires GravityDefined(w) && k < |w.bodies| && j <= |w.bodies|
    requires forall i :: 0 <= i < j ==> !PullsOn(w, k, i)
    ensures PulledVelocity(w, k, j, time) == w.bodies[k].vel
  {
    if j > 0 {
      UnpulledVelocity(w, k, j - 1, time);
      assert !PullsOn(w, k, j - 1);
      assert Push(w, k, j - 1, time) == Zero;
      AddZero(w.bodies[k].vel);
    }
  }

  /** The heaviest planet, and every inactive planet, leaves the gravity pass
      as it entered it. */
  lemma UnpulledPlanets(w: World, k: nat, time: real)
    requires GravityDefined(w) && k < |w.bodies|
    requires !w.active[k] || forall j :: 0 <= j < |w.bodies| ==> w.bodies[j].mass <= w.bodies[k].mass
    ensures GravityPass(w, time).bodies[k] == w.bodies[k]
  {
    UnpulledVelocity(w, k, |w.bodies|, time);
  }

  /** Two worlds that agree on flags, masses and positions. */
  predicate SamePlaces(w: World, v: World) {
    WellFormed(w) && WellFormed(v) && |w.bodies| == |v.bodies| && w.active == v.active &&
    forall k :: 0 <= k < |w.bodies| ==> w.bodies[k].mass == v.bodies[k].mass && w.bodies[k].pos == v.bodies[k].pos
  }

  lemma SamePlacesGravityDefined(w: World, v: World)
    requires SamePlaces(w, v) && GravityDefined(w)
    ensures GravityDefined(v)
  {
    forall k, j | 0 <= k < |v.bodies| && 0 <= j < |v.bodies| && PullsOn(v, k, j)
      ensures Radicand(v.bodies[k], v.bodies[j]) != 0.0
    {
      assert PullsOn(w, k, j);
      RadicandPositions(w.bodies[k], w.bodies[j], v.bodies[k], v.bodies[j]);
    }
  }

  lemma RadicandPositions(a: PlanetState, b: PlanetState, c: PlanetState, d: PlanetState)
    requires a.pos == c.pos && b.pos == d.pos
    ensures Radicand(a, b) == Radicand(c, d)
  {
  }

  /** Pushes read no velocity: the gravity pass may update planets in place,
      one after another, and still compute every push from the positions the
      pass started with, so the order of the planets does not matter. */
  lemma PushIgnoresVelocities(w: World, v: World, k: nat, j: nat, time: real)
    requires SamePlaces(w, v) && GravityDefined(w) && GravityDefined(v)
    requires k < |w.bodies| && j < |w.bodies|
    ensures Push(w, k, j, time) == Push(v, k, j, time)
  {
    PushOnIgnoresVelocities(w.bodies[k], w.bodies[j], v.bodies[k], v.bodies[j], w.active[k], w.active[j], time);
  }

  lemma {:induction false} PulledVelocityIgnoresVelocities(w: World, v: World, k: nat, j: nat, time: real)
    requires SamePlaces(w, v) && GravityDefined(w) && GravityDefined(v)
    requires k < |w.bodies| && j <= |w.bodies| && w.bodies[k].vel == v.bodies[k].vel
    ensures PulledVelocity(w, k, j, time) == PulledVelocity(v, k, j, time)
  {
    if j > 0 {
      PulledVelocityIgnoresVelocities(w, v, k, j - 1, time);
      PushIgnoresVelocities(w, v, k, j - 1, time);
    }
  }

  /** In the configured system (sun, mercury, earth, moon, mars, with the
      masses of the game's constructor) the distance hack applies to the
      earth-moon pair and to no other, although the sun's products wrap
      around 32 bits. */
  const ConfiguredMasses: seq<Int32> := [100000000, 90, 100, 1, 60]

  lemma EarthMoonHackPairs(a: nat, b: nat)
    requires a < 5 && b < 5
    ensures AsUnsigned(WrapProduct(ConfiguredMasses[a], ConfiguredMasses[b])) == EarthMoonMass
            <==> (a == 2 && b == 3) || (a == 3 && b == 2)
  {
    var m := ConfiguredMasses;
    assert m[0] == 100000000 && m[1] == 90 && m[2] == 100 && m[3] == 1 && m[4] == 60;
    assert AsUnsigned(WrapProduct(m[0], m[0])) == 1874919424;
    assert AsUnsigned(WrapProduct(m[0], m[1])) == 410065408;
    assert AsUnsigned(WrapProduct(m[0], m[2])) == 1410065408;
    assert AsUnsigned(WrapProduct(m[0], m[4])) == 1705032704;
  }

  // ---------------------------------------------------------------------
  // Collisions

  /** `DistanceFrom < radius + radius`, through squares: the distance is the
      square root of the radicand. */
  predicate Touching(a: PlanetState, b: PlanetState) {
    var s := a.radius + b.radius;
    s > 0.0 && Radicand(a, b) < s * s
  }

  /** The square test agrees with the test on the distance itself. */
  lemma TouchingMeansCloser(a: PlanetState, b: PlanetState, d: real)
    requires d >= 0.0 && d * d == Radicand(a, b)
    ensures Touching(a, b) <==> d < a.radius + b.radius
  {
    Reals.RootBelow(Radicand(a, b), d, a.radius + b.radius);
  }

  /** The strength of a collision: the wrapped mass product times the
      length of the relative velocity. */
  function KickFactor(o: PlanetState, other: PlanetState, root: real -> real): real {
    (WrapProduct(other.mass, o.mass) as real) * root(Norm2(Sub(o.vel, other.vel)))
  }

  /** Each component is pushed against its own sign: down when positive,
      up otherwise. */
  function Against(v: real): real {
    if v > 0.0 then -1.0 else 1.0
  }

  function Kick(s: PlanetState, f: real): PlanetState
    requires s.mass != 0
  {
    s.(vel := Vec3(s.vel.x + f / (s.mass as real) * Against(s.vel.x),
                   s.vel.y + f / (s.mass as real) * Against(s.vel.y),
                   s.vel.z + f / (s.mass as real) * Against(s.vel.z)))
  }

  /** A kick of non-negative strength on a positive mass moves every
      component by exactly f / mass, toward zero from a positive value and
      upward from any other. */
  lemma KickOpposesMotion(s: PlanetState, f: real)
    requires s.mass > 0 && f >= 0.0
    ensures var v := Kick(s, f).vel;
            var step := f / (s.mass as real);
            step >= 0.0 &&
            (s.vel.x > 0.0 ==> v.x == s.vel.x - step) && (s.vel.x <= 0.0 ==> v.x == s.vel.x + step) &&
            (s.vel.y > 0.0 ==> v.y == s.vel.y - step) && (s.vel.y <= 0.0 ==> v.y == s.vel.y + step) &&
            (s.vel.z > 0.0 ==> v.z == s.vel.z - step) && (s.vel.z <= 0.0 ==> v.z == s.vel.z + step)
  {
  }

  /** Mass, radius, rotation and textures of every planet agree. */
  predicate SameFrame(a: seq<PlanetState>, b: seq<PlanetState>) {
    |a| == |b| &&
    forall k :: 0 <= k < |a| ==>
      a[k].mass == b[k].mass && a[k].radius == b[k].radius && a[k].rotation == b[k].rotation && a[k].textures == b[k].textures
  }

  /** One iteration of the collision loops: `object` is entry i and
      `otherObject` is entry j. */
  function Collide(w: World, i: nat, j: nat, root: real -> real): (r: World)
    requires WellFormed(w) && Massive(w) && i < |w.bodies| && j < |w.bodies|
    ensures WellFormed(r) && SameFrame(w.bodies, r.bodies)
    ensures forall k :: 0 <= k < |r.active| && r.active[k] ==> w.active[k]
  {
    if !w.active[i] || i == j then w
    else if !Touching(w.bodies[i], w.bodies[j]) then w
    else if IsSun(w.bodies[i]) then w.(active := w.active[j := false])
    else if IsSun(w.bodies[j]) then w.(active := w.active[i := false])
    else
      var f := KickFactor(w.bodies[i], w.bodies[j], root);
      var other := Kick(w.bodies[j], f);
      var inner := Kick(w.bodies[i], f);
      w.(bodies := w.bodies[j := Moved(other)][i := Moved(inner)])
  }

  lemma SameFrameMassive(w: World, v: World)
    requires Massive(w) && SameFrame(w.bodies, v.bodies)
    ensures Massive(v)
  {
  }

  /** The inner loop of the collision pass, up to entry j. */
  function CollideRow(w: World, i: nat, j: nat, root: real -> real): (r: World)
    requires WellFormed(w) && Massive(w) && i < |w.bodies| && j <= |w.bodies|
    ensures WellFormed(r) && Massive(r) && SameFrame(w.bodies, r.bodies)
    ensures forall k :: 0 <= k < |r.active| && r.active[k] ==> w.active[k]
  {
    if j == 0 then w
    else
      var before := CollideRow(w, i, j - 1, root);
      var r := Collide(before, i, j - 1, root);
      SameFrameMassive(before, r);
      r
  }

  /** One more iteration of the inner loop. */
  lemma CollideRowStep(w: World, i: nat, j: nat, root: real -> real)
    requires WellFormed(w) && Massive(w) && i < |w.bodies| && j < |w.bodies|
    ensures Massive(CollideRow(w, i, j, root)) && |CollideRow(w, i, j, root).bodies| == |w.bodies|
    ensures CollideRow(w, i, j + 1, root) == Collide(CollideRow(w, i, j, root), i, j, root)
  {
  }

  /** The outer loop of the collision pass, up to entry i. */
  function CollideRows(w: World, i: nat, root: real -> real): (r: World)
    requires WellFormed(w) && Massive(w) && i <= |w.bodies|
    ensures WellFormed(r) && Massive(r) && SameFrame(w.bodies, r.bodies)
    ensures forall k :: 0 <= k < |r.active| && r.active[k] ==> w.active[k]
  {
    if i == 0 then w
    else CollideRow(CollideRows(w, i - 1, root), i - 1, |w.bodies|, root)
  }

  /** The last loop of `Step`: every planet moves, active or not. */
  function MovePass(w: World): (r: World)
    ensures |r.bodies| == |w.bodies| && r.active == w.active
    ensures forall k :: 0 <= k < |w.bodies| ==> r.bodies[k] == w.bodies[k].(pos := Add(w.bodies[k].pos, w.bodies[k].vel))
  {
    World(seq(|w.bodies|, k requires 0 <= k < |w.bodies| => Moved(w.bodies[k])), w.active)
  }

  /** `Step` on a running game. */
  function StepWorld(w: World, time: real, root: real -> real): World
    requires GravityDefined(w) && Massive(w)
  {
    var g := GravityPass(w, time);
    assert Massive(g);
    MovePass(CollideRows(g, |w.bodies|, root))
  }

  /** A row whose outer planet is inactive changes nothing. */
  lemma {:induction false} InactiveRowSkipped(w: World, i: nat, j: nat, root: real -> real)
    requires WellFormed(w) && Massive(w) && i < |w.bodies| && j <= |w.bodies| && !w.active[i]
    ensures CollideRow(w, i, j, root) == w
  {
    if j > 0 {
      InactiveRowSkipped(w, i, j - 1, root);
    }
  }

  /** The outcomes of one pair. Contact with the sun switches the other
      planet off and changes nothing else; any other contact kicks both
      planets apart with the same factor and moves them once more. The inner
      planet may be inactive: only the outer one is checked. */
  lemma CollideOutcome(w: World, i: nat, j: nat, root: real -> real)
    requires WellFormed(w) && Massive(w) && i < |w.bodies| && j < |w.bodies|
    ensures !w.active[i] || i == j || !Touching(w.bodies[i], w.bodies[j]) ==> Collide(w, i, j, root) == w
    ensures w.active[i] && i != j && Touching(w.bodies[i], w.bodies[j]) && IsSun(w.bodies[i]) ==>
              Collide(w, i, j, root) == World(w.bodies, w.active[j := false])
    ensures w.active[i] && i != j && Touching(w.bodies[i], w.bodies[j]) && !IsSun(w.bodies[i]) && IsSun(w.bodies[j]) ==>
              Collide(w, i, j, root) == World(w.bodies, w.active[i := false])
    ensures w.active[i] && i != j && Touching(w.bodies[i], w.bodies[j]) && !IsSun(w.bodies[i]) && !IsSun(w.bodies[j]) ==>
              var r := Collide(w, i, j, root);
              var f := KickFactor(w.bodies[i], w.bodies[j], root);
              r.active == w.active &&
              r.bodies[i] == Moved(Kick(w.bodies[i], f)) && r.bodies[j] == Moved(Kick(w.bodies[j], f)) &&
              forall k :: 0 <= k < |w.bodies| && k != i && k != j ==> r.bodies[k] == w.bodies[k]
  {
  }

  /** Entry s is the sun, and no other entry is. */
  predicate OnlySun(bodies: seq<PlanetState>, s: nat) {
    s < |bodies| && IsSun(bodies[s]) && forall k :: 0 <= k < |bodies| && k != s ==> !IsSun(bodies[k])
  }

  /** Worlds in the same frame have the same masses, so the same only sun. */
  lemma SameFrameOnlySun(a: seq<PlanetState>, b: seq<PlanetState>, s: nat)
    requires SameFrame(a, b) && OnlySun(a, s)
    ensures OnlySun(b, s)
  {
  }

  /** The only sun keeps its flag through a collision. */
  lemma CollideKeepsSun(w: World, i: nat, j: nat, s: nat, root: real -> real)
    requires WellFormed(w) && Massive(w) && i < |w.bodies| && j < |w.bodies| && s < |w.bodies|
    requires OnlySun(w.bodies, s)
    ensures Collide(w, i, j, root).active[s] == w.active[s]
  {
  }

  lemma {:induction false} CollideRowKeepsSun(w: World, i: nat, j: nat, s: nat, root: real -> real)
    requires WellFormed(w) && Massive(w) && i < |w.bodies| && j <= |w.bodies| && s < |w.bodies|
    requires OnlySun(w.bodies, s)
    ensures CollideRow(w, i, j, root).active[s] == w.active[s]
  {
    if j > 0 {
      CollideRowKeepsSun(w, i, j - 1, s, root);
      var before := CollideRow(w, i, j - 1, root);
      SameFrameOnlySun(w.bodies, before.bodies, s);
      CollideKeepsSun(before, i, j - 1, s, root);
    }
  }

  lemma {:induction false} CollideRowsKeepSun(w: World, i: nat, s: nat, root: real -> real)
    requires WellFormed(w) && Massive(w) && i <= |w.bodies| && s < |w.bodies|
    requires OnlySun(w.bodies, s)
    ensures CollideRows(w, i, root).active[s] == w.active[s]
  {
    if i > 0 {
      var before := CollideRows(w, i - 1, root);
      assert CollideRows(w, i, root) == CollideRow(before, i - 1, |w.bodies|, root);
      SameFrameOnlySun(w.bodies, before.bodies, s);
      CollideRowKeepsSun(before, i - 1, |w.bodies|, s, root);
      CollideRowsKeepSun(w, i - 1, s, root);
      assert CollideRows(w, i, root).active[s] == before.active[s];
    }
  }

  /** A step never switches a planet back on, and the only sun is never
      switched off. */
  lemma StepFlags(w: World, time: real, root: real -> real)
    requires GravityDefined(w) && Massive(w)
    ensures |StepWorld(w, time, root).active| == |w.active|
    ensures forall k :: 0 <= k < |w.active| && StepWorld(w, time, root).active[k] ==> w.active[k]
    ensures forall s: nat :: OnlySun(w.bodies, s) ==> StepWorld(w, time, root).active[s] == w.active[s]
  {
    var g := GravityPass(w, time);
    assert Massive(g);
    forall s: nat | OnlySun(w.bodies, s)
      ensures StepWorld(w, time, root).active[s] == w.active[s]
    {
      assert OnlySun(g.bodies, s);
      CollideRowsKeepSun(g, |w.bodies|, s, root);
    }
  }

  // ---------------------------------------------------------------------
  // Pause and quit

  const KeyEscape: nat := 256
  const KeyT: nat := 84
  const Press: nat := 1
  const Debounce: real := 0.2

  /** `needs_to_stop`, `stop` and `stopTimeout`. */
  datatype Pause = Pause(needsToStop: bool, stop: bool, stopTimeout: real)

  /** `ProcessKeyPress` on the keys that change the pause state. */
  function KeyPress(s: Pause, key: nat, action: nat): Pause {
    var s1 := if key == KeyEscape && action == Press then s.(needsToStop := true) else s;
    if key == KeyT && action == Press && s1.stopTimeout <= 0.0 then s1.(stopTimeout := Debounce, stop := !s1.stop) else s1
  }

  /** The timer part of `Tick`: a frame after quitting does nothing. */
  function FrameTimer(s: Pause, delta: real): Pause {
    if s.needsToStop then s
    else if s.stopTimeout > 0.0 then s.(stopTimeout := s.stopTimeout - delta)
    else s
  }

  /** T toggles time exactly when the debounce timer has run out, and
      re-arms the timer; Escape always asks to quit, and nothing clears that. */
  lemma KeyPressRules(s: Pause, key: nat, action: nat)
    ensures (KeyPress(s, KeyT, Press).stop != s.stop) <==> s.stopTimeout <= 0.0
    ensures s.stopTimeout <= 0.0 ==> KeyPress(s, KeyT, Press).stopTimeout == Debounce
    ensures KeyPress(s, KeyEscape, Press).needsToStop && KeyPress(s, KeyEscape, Press).stop == s.stop
    ensures s.needsToStop ==> KeyPress(s, key, action).needsToStop && FrameTimer(s, 1.0).needsToStop
    ensures (key != KeyT && key != KeyEscape) || action != Press ==> KeyPress(s, key, action) == s
  {
  }

  function Sum(deltas: seq<real>): real {
    if deltas == [] then 0.0 else deltas[0] + Sum(deltas[1..])
  }

  function Frames(s: Pause, deltas: seq<real>): Pause
    decreases |deltas|
  {
    if deltas == [] then s else Frames(FrameTimer(s, deltas[0]), deltas[1..])
  }

  /** The debounce: while the frame times since the last toggle add up to
      less than the timer, each frame takes its time off the timer and a
      second T press is ignored. */
  lemma {:induction false} DebounceBlocksToggle(s: Pause, deltas: seq<real>)
    requires !s.needsToStop
    requires forall k :: 0 <= k < |deltas| ==> deltas[k] >= 0.0
    requires Sum(deltas) < s.stopTimeout
    ensures Frames(s, deltas) == s.(stopTimeout := s.stopTimeout - Sum(deltas))
    ensures KeyPress(Frames(s, deltas), KeyT, Press).stop == s.stop
    decreases |deltas|
  {
    if deltas != [] {
      var rest := deltas[1..];
      SumNonNegative(rest);
      var s1 := FrameTimer(s, deltas[0]);
      assert s1 == s.(stopTimeout := s.stopTimeout - deltas[0]);
      DebounceBlocksToggle(s1, rest);
    }
  }

  lemma {:induction false} SumNonNegative(deltas: seq<real>)
    requires forall k :: 0 <= k < |deltas| ==> deltas[k] >= 0.0
    ensures Sum(deltas) >= 0.0
  {
    if deltas != [] {
      SumNonNegative(deltas[1..]);
    }
  }

  // ---------------------------------------------------------------------
  // The frame

  /** The rotation pass of `Tick`: every active planet spins by the frame
      time, inactive ones are left alone. */
  function ShadeWorld(w: World, time: real): (r: World)
    requires WellFormed(w)
    ensures WellFormed(r) && |r.bodies| == |w.bodies| && r.active == w.active
  {
    World(seq(|w.bodies|, k requires 0 <= k < |w.bodies| => if w.active[k] then Spun(w.bodies[k], time) else w.bodies[k]), w.active)
  }

  /** On a stopped frame the rotation pass is given time 0 and so changes
      nothing; on a running one only active planets spin, and only their
      rotation changes. */
  lemma ShadeWorldRules(w: World, time: real, k: nat)
    requires WellFormed(w) && k < |w.bodies|
    ensures ShadeWorld(w, 0.0) == w
    ensures ShadeWorld(w, time).bodies[k] == w.bodies[k].(rotation := ShadeWorld(w, time).bodies[k].rotation)
    ensures !w.active[k] ==> ShadeWorld(w, time).bodies[k] == w.bodies[k]
  {
    assert ShadeWorld(w, 0.0).bodies == w.bodies;
  }

  /** The five planets of the game's constructor: sun, mercury, earth,
      moon, mars. */
  const ConfiguredBodies: seq<PlanetState> :=
    [PlanetState(100000000, 5.0, Vec3(0.0, 0.0, 0.0), Vec3(0.0, 0.0, 0.0), Zero, TexturesOf(Sun)),
     PlanetState(90, 0.5, Vec3(1.5, -30.0, 0.0), Vec3(0.0004, 0.00015, 0.0), Zero, TexturesOf(Mercury)),
     PlanetState(100, 1.0, Vec3(50.0, 0.0, 0.0), Vec3(0.0001, 0.0003, 0.0), Zero, TexturesOf(Earth)),
     PlanetState(1, 0.2, Vec3(51.5, -1.5, 0.0), Vec3(0.0001, 0.0003 + 0.00008, 0.0), Zero, TexturesOf(Moon)),
     PlanetState(60, 0.8, Vec3(1.5, -80.0, 0.0), Vec3(-0.0005, 0.00004, 0.0), Zero, TexturesOf(Mars))]

  /** The map is ordered by the planets' addresses, which the model leaves
      open: `order[k]` is the configured planet in entry k. */
  predicate IsOrder(order: seq<nat>) {
    |order| == 5 && (forall k :: 0 <= k < 5 ==> order[k] < 5) &&
    forall a, b :: 0 <= a < b < 5 ==> order[a] != order[b]
  }

  predicate Distinct<T(==)>(s: seq<T>) {
    forall a, b :: 0 <= a < b < |s| ==> s[a] != s[b]
  }

  /** The entry of each of five different values in the map order. */
  function Slots<T(==)>(made: seq<T>, order: seq<nat>): map<T, nat>
    requires IsOrder(order) && |made| == 5 && Distinct(made)
  {
    map k | 0 <= k < 5 :: made[order[k]] := k
  }

  lemma SlotsIndex<T>(made: seq<T>, order: seq<nat>)
    requires IsOrder(order) && |made| == 5 && Distinct(made)
    ensures forall k :: 0 <= k < 5 ==> made[order[k]] in Slots(made, order) && Slots(made, order)[made[order[k]]] == k
  {
  }

  /** The world right after the constructor, in the given map order. */
  function Configured(order: seq<nat>): (r: World)
    requires IsOrder(order)
    ensures WellFormed(r) && |r.bodies| == 5
  {
    World(seq(5, k requires 0 <= k < 5 => ConfiguredBodies[order[k]]), [true, true, true, true, true])
  }

  /** The configured system, whatever the map order: every mass is non-zero,
      every planet is active, the sun's entry is the only one with the sun's
      mass and the heaviest one, and the masses are `ConfiguredMasses`, so
      the distance hack applies to the earth and the moon alone. */
  lemma ConfiguredWorldFacts(order: seq<nat>)
    requires IsOrder(order)
    ensures Massive(Configured(order))
    ensures forall k :: 0 <= k < 5 ==> Configured(order).active[k]
    ensures forall k :: 0 <= k < 5 ==> (IsSun(Configured(order).bodies[k]) <==> order[k] == 0)
    ensures forall k :: 0 <= k < 5 ==>
              Configured(order).bodies[k].mass == ConfiguredMasses[order[k]] <= ConfiguredMasses[0]
  {
    assert forall i :: 0 <= i < 5 ==> ConfiguredBodies[i].mass == ConfiguredMasses[i];
  }

  /** One iteration of the inner gravity loop: the push of `other` on `o`,
      added to o's velocity component by component. */
  method PullBy(o: Planet, other: Planet, oActive: bool, otherActive: bool, time: real)
    requires oActive && otherActive && other.mass > o.mass ==> Radicand(o.State(), other.State()) != 0.0
    modifies o
    ensures o.State() == old(o.State()).(vel := Add(old(o.State()).vel, PushOn(old(o.State()), old(other.State()), oActive, otherActive, time)))
  {
    if !oActive || !otherActive || other.mass <= o.mass {
      return;
    }
    var pull := PullStrength(o, other, time);
    o.vX := o.vX + pull * Toward(other.x, o.x);
    o.vY := o.vY + pull * Toward(other.y, o.y);
    o.vZ := o.vZ + pull * Toward(other.z, o.z);
  }

  /** The pull's strength: the distance radicand, divided by 10000 for the
      Earth-Moon pair, then mass times G over it times the frame time. */
  method PullStrength(o: Planet, other: Planet, time: real) returns (pull: real)
    requires Radicand(o.State(), other.State()) != 0.0
    ensures pull == Pull(o.State(), other.State(), time)
  {
    var distance2 := o.DistanceRadicand(other);
    PullDivisorPositive(o.State(), other.State());
    if AsUnsigned(WrapProduct(o.mass, other.mass)) == EarthMoonMass {
      distance2 := distance2 / 10000.0;
    }
    pull := (other.mass as real) * Gravitational / distance2 * time;
  }

  /** The kick branch of a collision: both planets are pushed apart by the
      same factor and each moves once. */
  method KickApart(o: Planet, other: Planet, time: real, root: real -> real)
    requires o != other && o.mass != 0 && other.mass != 0
    modifies o, other
    ensures var f := KickFactor(old(o.State()), old(other.State()), root);
            o.State() == Moved(Kick(old(o.State()), f)) && other.State() == Moved(Kick(old(other.State()), f))
  {
    var factor := (WrapProduct(other.mass, o.mass) as real) * root(Norm2(Sub(Vec3(o.vX, o.vY, o.vZ), Vec3(other.vX, other.vY, other.vZ))));
    assert factor == KickFactor(o.State(), other.State(), root);
    KickBy(other, factor);
    KickBy(o, factor);
    o.Tick(time);
    other.Tick(time);
  }

  /** A kick of the given strength on one planet. */
  method KickBy(p: Planet, factor: real)
    requires p.mass != 0
    modifies p
    ensures p.State() == Kick(old(p.State()), factor)
  {
    p.vX := p.vX + factor / (p.mass as real) * Against(p.vX);
    p.vY := p.vY + factor / (p.mass as real) * Against(p.vY);
    p.vZ := p.vZ + factor / (p.mass as real) * Against(p.vZ);
  }

  /** The five planets of the constructor, in declaration order. */
  method MakePlanets() returns (made: seq<Planet>)
    ensures |made| == 5 && Distinct(made)
    ensures forall m :: 0 <= m < 5 ==> fresh(made[m]) && made[m].State() == ConfiguredBodies[m]
  {
    var s := new Planet(SunMass as Int32, 5.0, 0.0, 0.0, 0.0, 0.0, 0.0, 0.0, PlanetType.Sun);
    var me := new Planet(90, 0.5, 1.5, -30.0, 0.0, 0.0004, 0.00015, 0.0, PlanetType.Mercury);
    var e := new Planet(100, 1.0, 50.0, 0.0, 0.0, 0.0001, 0.0003, 0.0, PlanetType.Earth);
    var mo := new Planet(1, 0.2, 51.5, -1.5, 0.0, 0.0001, 0.0003 + 0.00008, 0.0, PlanetType.Moon);
    var ma := new Planet(60, 0.8, 1.5, -80.0, 0.0, -0.0005, 0.00004, 0.0, PlanetType.Mars);
    made := [s, me, e, mo, ma];
  }

  /** `NeutronGame` without the camera, shaders, skybox and models. The map
      `objectList` never gains or loses a key after the constructor, so its
      keys are the constant sequence `planets`, in the map's order (by
      address, which follows the members' declaration order), and its values
      the sequence `active`. */
  class Game {
    var needsToStop: bool
    var stop: bool
    var stopTimeout: real
    var deltaTime: real
    const sun: Planet
    const mercury: Planet
    const earth: Planet
    const moon: Planet
    const mars: Planet
    const planets: seq<Planet>
    /** The entry of each planet, so that no planet holds two entries. */
    ghost const slot: map<Planet, nat>
    var active: seq<bool>

    ghost predicate Valid()
      reads this
    {
      |active| == |planets| &&
      forall k :: 0 <= k < |planets| ==> planets[k] in slot && slot[planets[k]] == k
    }

    function Planets(): set<Planet> {
      set p | p in planets
    }

    function States(): (r: seq<PlanetState>)
      reads Planets()
      ensures |r| == |planets| && forall k :: 0 <= k < |planets| ==> r[k] == planets[k].State()
    {
      seq(|planets|, k requires 0 <= k < |planets| reads Planets() => planets[k].State())
    }

    function WorldOf(): World
      reads this, Planets()
    {
      World(States(), active)
    }

    function PauseState(): Pause
      reads this
    {
      Pause(needsToStop, stop, stopTimeout)
    }

    /** The constructor: the five planets, all active, in the given map
        order, with time running. */
    constructor(order: seq<nat>)
      requires IsOrder(order)
      ensures Valid() && fresh(Planets())
      ensures WorldOf() == Configured(order)
      ensures PauseState() == Pause(false, false, 0.0) && deltaTime == 0.0
    {
      needsToStop := false;
      deltaTime := 0.0;
      stop := false;
      stopTimeout := 0.0;
      var made := MakePlanets();
      sun := made[0];
      mercury := made[1];
      earth := made[2];
      moon := made[3];
      mars := made[4];
      planets := seq(5, k requires 0 <= k < 5 => made[order[k]]);
      slot := Slots(made, order);
      active := [true, true, true, true, true];
      new;
      SlotsIndex(made, order);
      assert forall k :: 0 <= k < 5 ==> planets[k].State() == ConfiguredBodies[order[k]];
    }

    /** `ProcessKeyPress` on the pause and quit keys; the camera keys are
        not part of this model. */
    method ProcessKeyPress(key: nat, action: nat)
      modifies this`needsToStop, this`stop, this`stopTimeout
      ensures PauseState() == KeyPress(old(PauseState()), key, action)
    {
      if key == KeyEscape && action == Press {
        needsToStop := true;
      }
      if key == KeyT && action == Press && stopTimeout <= 0.0 {
        stopTimeout := Debounce;
        stop := !stop;
      }
    }

    /** The inner gravity loop for planet i: the pushes of every planet,
        applied to its velocity one after another. */
    method PullPlanet(i: nat, time: real)
      requires Valid() && i < |planets| && GravityDefined(WorldOf())
      modifies planets[i]
      ensures planets[i].State() == old(WorldOf()).bodies[i].(vel := PulledVelocity(old(WorldOf()), i, |planets|, time))
    {
      ghost var w := WorldOf();
      var j := 0;
      while j < |planets|
        invariant 0 <= j <= |planets|
        invariant planets[i].State() == w.bodies[i].(vel := PulledVelocity(w, i, j, time))
        invariant forall k :: 0 <= k < |planets| && k != i ==> planets[k].State() == w.bodies[k]
      {
        PullStep(i, j, time, w);
        j := j + 1;
      }
    }

    /** One pass of the inner gravity loop: planet j's push on planet i,
        computed from the masses and positions of the world w the loop
        started from, which planet j still has. */
    method PullStep(i: nat, j: nat, time: real, ghost w: World)
      requires Valid() && GravityDefined(w) && |w.bodies| == |planets| && w.active == active
      requires i < |planets| && j < |planets|
      requires planets[i].State() == w.bodies[i].(vel := PulledVelocity(w, i, j, time))
      requires j != i ==> planets[j].State() == w.bodies[j]
      modifies planets[i]
      ensures planets[i].State() == w.bodies[i].(vel := PulledVelocity(w, i, j + 1, time))
      ensures forall k :: 0 <= k < |planets| && k != i ==> planets[k].State() == old(planets[k].State())
    {
      var o := planets[i];
      PushOnIgnoresVelocities(w.bodies[i], w.bodies[j], o.State(), planets[j].State(), active[i], active[j], time);
      PullBy(o, planets[j], active[i], active[j], time);
    }

    /** The gravity loop of `Step`. */
    method ApplyGravity(time: real)
      requires Valid() && GravityDefined(WorldOf())
      modifies Planets()
      ensures WorldOf() == GravityPass(old(WorldOf()), time)
    {
      ghost var w0 := WorldOf();
      ghost var g := GravityPass(w0, time);
      var i := 0;
      while i < |planets|
        invariant 0 <= i <= |planets|
        invariant forall k :: 0 <= k < i ==> planets[k].State() == g.bodies[k]
        invariant forall k :: i <= k < |planets| ==> planets[k].State() == w0.bodies[k]
      {
        assert SamePlaces(w0, WorldOf());
        PullPlanetInPass(i, time, w0);
        i := i + 1;
      }
      assert States() == g.bodies;
    }

    /** One pass of the gravity loop: planet i takes the velocity the pass
        gives it from the world w0 at the start of the pass, whose masses and
        positions are still those of every planet. */
    method PullPlanetInPass(i: nat, time: real, ghost w0: World)
      requires Valid() && i < |planets| && GravityDefined(w0)
      requires SamePlaces(w0, WorldOf()) && planets[i].State() == w0.bodies[i]
      modifies planets[i]
      ensures planets[i].State() == GravityPass(w0, time).bodies[i]
      ensures forall k :: 0 <= k < |planets| && k != i ==> planets[k].State() == old(planets[k].State())
    {
      ghost var cur := WorldOf();
      SamePlacesGravityDefined(w0, cur);
      PulledVelocityIgnoresVelocities(cur, w0, i, |planets|, time);
      assert GravityPass(w0, time).bodies[i] == cur.bodies[i].(vel := PulledVelocity(cur, i, |planets|, time));
      PullPlanet(i, time);
    }

    /** One iteration of the collision loops, for entries i and j. */
    method CollidePair(i: nat, j: nat, time: real, root: real -> real)
      requires Valid() && Massive(WorldOf()) && i < |planets| && j < |planets|
      modifies this`active, planets[i], planets[j]
      ensures Valid()
      ensures WorldOf() == Collide(old(WorldOf()), i, j, root)
    {
      ghost var w := WorldOf();
      CollideOutcome(w, i, j, root);
      if !active[i] || i == j {
        return;
      }
      var o := planets[i];
      var other := planets[j];
      var reach := o.radius + other.radius;
      if reach > 0.0 && o.DistanceRadicand(other) < reach * reach {
        assert Touching(w.bodies[i], w.bodies[j]);
        if o.mass as int == SunMass {
          active := active[j := false];
        } else if other.mass as int == SunMass {
          active := active[i := false];
        } else {
          KickApart(o, other, time, root);
          ghost var r := Collide(w, i, j, root);
          assert forall k :: 0 <= k < |planets| ==> planets[k].State() == r.bodies[k];
          assert States() == r.bodies;
        }
      } else {
        assert !Touching(w.bodies[i], w.bodies[j]);
      }
    }

    /** The inner collision loop for entry i. */
    method CollideOuter(i: nat, time: real, root: real -> real)
      requires Valid() && Massive(WorldOf()) && i < |planets|
      modifies this`active, Planets()
      ensures Valid()
      ensures WorldOf() == CollideRow(old(WorldOf()), i, |planets|, root)
    {
      if !active[i] {
        InactiveRowSkipped(WorldOf(), i, |planets|, root);
      } else {
        CollideActiveRow(i, time, root);
      }
    }

    /** The inner collision loop for an active entry i. */
    method CollideActiveRow(i: nat, time: real, root: real -> real)
      requires Valid() && Massive(WorldOf()) && i < |planets|
      modifies this`active, Planets()
      ensures Valid()
      ensures WorldOf() == CollideRow(old(WorldOf()), i, |planets|, root)
    {
      ghost var row := WorldOf();
      var j := 0;
      while j < |planets|
        invariant 0 <= j <= |planets| && Valid()
        invariant WorldOf() == CollideRow(row, i, j, root)
      {
        CollideInRow(i, j, time, root, row);
        j := j + 1;
      }
    }

    /** One pass of the inner collision loop: after pairs (i, 0) .. (i, j-1)
        of the row that started from `row`, pair (i, j). */
    method CollideInRow(i: nat, j: nat, time: real, root: real -> real, ghost row: World)
      requires Valid() && WellFormed(row) && Massive(row) && i < |planets| && j < |planets|
      requires |row.bodies| == |planets| && WorldOf() == CollideRow(row, i, j, root)
      modifies this`active, planets[i], planets[j]
      ensures Valid() && WorldOf() == CollideRow(row, i, j + 1, root)
    {
      ghost var before := WorldOf();
      CollideRowStep(row, i, j, root);
      CollidePair(i, j, time, root);
      assert WorldOf() == Collide(before, i, j, root);
    }

    /** The collision loops of `Step`. */
    method HandleCollisions(time: real, root: real -> real)
      requires Valid() && Massive(WorldOf())
      modifies this`active, Planets()
      ensures Valid()
      ensures WorldOf() == CollideRows(old(WorldOf()), |planets|, root)
    {
      ghost var w0 := WorldOf();
      assert |w0.bodies| == |planets|;
      var i := 0;
      while i < |planets|
        invariant 0 <= i <= |planets| && Valid()
        invariant WorldOf() == CollideRows(w0, i, root)
      {
        CollideOuter(i, time, root);
        i := i + 1;
      }
    }

    /** The last loop of `Step`. */
    method MoveAll(time: real)
      requires Valid()
      modifies Planets()
      ensures WorldOf() == MovePass(old(WorldOf()))
    {
      ghost var w0 := WorldOf();
      var i := 0;
      while i < |planets|
        invariant 0 <= i <= |planets|
        invariant forall k :: 0 <= k < i ==> planets[k].State() == Moved(w0.bodies[k])
        invariant forall k :: i <= k < |planets| ==> planets[k].State() == w0.bodies[k]
      {
        planets[i].Tick(time);
        i := i + 1;
      }
    }

    /** `Step`: nothing while time is stopped, otherwise gravity, collisions
        and the move, in that order. */
    method Step(time: real, root: real -> real)
      requires Valid() && (!stop ==> GravityDefined(WorldOf()) && Massive(WorldOf()))
      modifies this`active, Planets()
      ensures Valid()
      ensures old(stop) ==> WorldOf() == old(WorldOf())
      ensures !old(stop) ==> WorldOf() == StepWorld(old(WorldOf()), time, root)
    {
      if stop {
        return;
      }
      ApplyGravity(time);
      HandleCollisions(time, root);
      MoveAll(time);
    }

    /** The rotation loop of `Tick`. */
    method ShadePlanets(time: real)
      requires Valid()
      modifies Planets()
      ensures WorldOf() == ShadeWorld(old(WorldOf()), time)
    {
      ghost var w0 := WorldOf();
      var i := 0;
      while i < |planets|
        invariant 0 <= i <= |planets|
        invariant forall k :: 0 <= k < i ==> planets[k].State() == ShadeWorld(w0, time).bodies[k]
        invariant forall k :: i <= k < |planets| ==> planets[k].State() == w0.bodies[k]
      {
        if active[i] {
          planets[i].SetShaderVariables(time);
        }
        i := i + 1;
      }
    }

    /** `Tick`: after Escape it reports the end and changes nothing but the
        frame time; otherwise it runs the debounce timer, steps the planets,
        spins the active ones by the frame time and spawns particles, the
        last two with time 0 while time is stopped; a frame time of 0 leaves
        the particles alone. */
    method Tick(delta: real, root: real -> real, pool: NeutronParticles.Generator, draws: seq<NeutronParticles.Draw>)
      returns (running: bool)
      requires Valid() && pool.Valid() && pool.amount == PoolSize && pool.cursor.last <= pool.amount && |draws| == 4
      requires !needsToStop && !stop ==> GravityDefined(WorldOf()) && Massive(WorldOf())
      modifies this`deltaTime, this`stopTimeout, this`active, Planets(), pool.particles, pool.cursor
      ensures Valid() && deltaTime == delta && running == !old(needsToStop)
      ensures !running ==>
                WorldOf() == old(WorldOf()) && PauseState() == old(PauseState()) &&
                pool.particles[..] == old(pool.particles[..]) && pool.cursor.last == old(pool.cursor.last)
      ensures running ==>
                PauseState() == FrameTimer(old(PauseState()), delta) &&
                WorldOf() == ShadeWorld(if stop then old(WorldOf()) else StepWorld(old(WorldOf()), delta, root), if stop then 0.0 else delta)
      ensures running && (stop || delta == 0.0) ==> pool.particles[..] == old(pool.particles[..]) && pool.cursor.last == old(pool.cursor.last)
      ensures running && !stop && delta != 0.0 ==>
                var spawned := NeutronParticles.RespawnAll(old(pool.particles[..]), old(pool.cursor.last), draws, NeutronParticles.DefaultOffset);
                pool.particles[..] == NeutronParticles.Decayed(spawned.particles, delta) && pool.cursor.last == spawned.last
    {
      deltaTime := delta;
      if needsToStop {
        return false;
      }
      RunFrame(delta, root, pool, draws);
      return true;
    }

    /** The part of `Tick` after the Escape check. */
    method RunFrame(delta: real, root: real -> real, pool: NeutronParticles.Generator, draws: seq<NeutronParticles.Draw>)
      requires Valid() && pool.Valid() && pool.amount == PoolSize && pool.cursor.last <= pool.amount && |draws| == 4
      requires !needsToStop && (!stop ==> GravityDefined(WorldOf()) && Massive(WorldOf()))
      modifies this`stopTimeout, this`active, Planets(), pool.particles, pool.cursor
      ensures Valid() && PauseState() == FrameTimer(old(PauseState()), delta)
      ensures WorldOf() == ShadeWorld(if stop then old(WorldOf()) else StepWorld(old(WorldOf()), delta, root), if stop then 0.0 else delta)
      ensures stop || delta == 0.0 ==> pool.particles[..] == old(pool.particles[..]) && pool.cursor.last == old(pool.cursor.last)
      ensures !stop && delta != 0.0 ==>
                var spawned := NeutronParticles.RespawnAll(old(pool.particles[..]), old(pool.cursor.last), draws, NeutronParticles.DefaultOffset);
                pool.particles[..] == NeutronParticles.Decayed(spawned.particles, delta) && pool.cursor.last == spawned.last
    {
      var frameTime := AdvanceWorld(delta, root);
      DrawParticles(pool, frameTime, draws);
    }

    /** The planets' part of a frame: the debounce timer runs down, the world
        steps unless time is stopped, and the planets are shaded with the
        frame time, which is 0 while time is stopped. */
    method AdvanceWorld(delta: real, root: real -> real) returns (frameTime: real)
      requires Valid() && !needsToStop && (!stop ==> GravityDefined(WorldOf()) && Massive(WorldOf()))
      modifies this`stopTimeout, this`active, Planets()
      ensures Valid() && PauseState() == FrameTimer(old(PauseState()), delta)
      ensures frameTime == if stop then 0.0 else delta
      ensures WorldOf() == ShadeWorld(if stop then old(WorldOf()) else StepWorld(old(WorldOf()), delta, root), frameTime)
    {
      if stopTimeout > 0.0 {
        stopTimeout := stopTimeout - delta;
      }
      Step(delta, root);
      frameTime := if stop then 0.0 else delta;
      ShadePlanets(frameTime);
    }
  }
}
