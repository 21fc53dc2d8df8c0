/** The engine's rigid-sphere physics (namespace nge::physics): a Body with a
    force accumulator, semi-implicit Euler integration, a boundary-inclusive
    sphere overlap test and an elastic impulse response; and a Simulation that
    stores bodies by value, records every overlapping ordered pair by copy, and
    ticks in the order broad phase, integration, response.

    A Body is a value type in the source (kept by value in std::vector and
    copied into the pair list), so it is a datatype here; its mutating member
    functions become functions returning the updated value, and the vectors
    the Simulation mutates are `seq` fields that its methods reassign. */
module NgePhysics {
  import opened Vectors
  import opened Wrappers
  import opened Reals

  /** 1 = perfectly elastic, no loss of energy. */
  const CoefficientOfRestitution: real := 1.0

  /** The default argument of Simulation::Tick: 1/30 of a second. */
  const DefaultTimeStep: real := 1.0 / 30.0

  datatype Body = Body(location: Vec3, velocity: Vec3, force: Vec3, invMass: real, radius: real)
  {
    /** Body::Integrate: velocity first, then position with the NEW velocity,
        then the force accumulator is cleared. */
    function Integrate(timeStep: real): (r: Body)
      ensures r.location == Add(location, Scale(r.velocity, timeStep))
      ensures r.force == Zero
      ensures r.invMass == invMass && r.radius == radius
    {
      var acceleration := Scale(force, invMass);
      var updated := Add(velocity, Scale(acceleration, timeStep));
      this.(velocity := updated, location := Add(location, Scale(updated, timeStep)), force := Zero)
    }

    /** Body::IsCollidingWith: radius + other.radius >= |location - other.location|,
        stated without the square root (exact over the reals). */
    predicate IsCollidingWith(other: Body) {
      var reach := radius + other.radius;
      reach >= 0.0 && Norm2(Sub(location, other.location)) <= reach * reach
    }

    /** Body::ComputeContactNormal: the unit vector towards other. The length
        of the line between the centres is a parameter (glm::normalize takes
        its square root); the source is undefined when the centres coincide. */
    function ComputeContactNormal(other: Body, len: real): (n: Vec3)
      requires len > 0.0 && len * len == Norm2(Sub(other.location, location))
      ensures Norm2(n) == 1.0
      ensures Dot(n, Sub(other.location, location)) == len
    {
      var d := Sub(other.location, location);
      var n := Scale(d, 1.0 / len);
      assert Norm2(n) == Norm2(d) / (len * len);
      assert Dot(n, d) == Norm2(d) / len;
      n
    }

    /** Applying an impulse: velocity -= invMass * impulse on this body and
        other.velocity += other.invMass * impulse on the other. */
    function ApplyImpulse(other: Body, impulse: Vec3): (r: (Body, Body))
      ensures r.0 == this.(velocity := r.0.velocity) && r.1 == other.(velocity := r.1.velocity)
    {
      (this.(velocity := Sub(velocity, Scale(impulse, invMass))),
       other.(velocity := Add(other.velocity, Scale(impulse, other.invMass))))
    }

    /** The impulse response of Body::PerformCollisionResponse along a given
        normal n, written as the source writes it. */
    function ImpulseAlong(other: Body, n: Vec3): (Body, Body)
      requires invMass + other.invMass != 0.0
    {
      var relative := Sub(other.velocity, velocity);
      var alongNormal := Dot(relative, n);
      if alongNormal > 0.0 then (this, other)
      else
        var impulseScale := -(1.0 + CoefficientOfRestitution) * alongNormal / (invMass + other.invMass);
        ApplyImpulse(other, Scale(n, impulseScale))
    }

    /** The square-root-free impulse coefficient: the response's impulse is
        k*d for d = other.location - location. */
    function ImpulseCoefficient(other: Body): real
      requires Norm2(Sub(other.location, location)) != 0.0 && invMass + other.invMass != 0.0
    {
      -(1.0 + CoefficientOfRestitution) * Dot(Sub(other.velocity, velocity), Sub(other.location, location))
        / (Norm2(Sub(other.location, location)) * (invMass + other.invMass))
    }

    /** Body::PerformCollisionResponse(other), written without the square
        root: with d = other.location - location the impulse is k*d for
        k = -(1+e)*(vrel.d)/(|d|^2 (invMass + other.invMass)). Bodies moving
        apart are returned unchanged before anything is divided. None exactly
        where the source writes non-finite velocities: coincident centres (the
        normal of a zero vector is NaN, which fails the moving-apart test), or
        approaching bodies whose inverse masses sum to zero. Only velocities
        change. */
    function PerformCollisionResponse(other: Body): (r: Option<(Body, Body)>)
      ensures r.None? <==> Norm2(Sub(other.location, location)) == 0.0
                           || (Dot(Sub(other.velocity, velocity), Sub(other.location, location)) <= 0.0
                               && invMass + other.invMass == 0.0)
      ensures r.Some? ==>
                r.value.0 == this.(velocity := r.value.0.velocity)
                && r.value.1 == other.(velocity := r.value.1.velocity)
    {
      var d := Sub(other.location, location);
      var relative := Sub(other.velocity, velocity);
      if Norm2(d) == 0.0 then None
      else if Dot(relative, d) > 0.0 then Some((this, other))
      else if invMass + other.invMass == 0.0 then None
      else Some(ApplyImpulse(other, Scale(d, ImpulseCoefficient(other))))
    }
  }

  /** The Body constructor: at rest, no accumulated force, inverse mass 1/mass.
      The source divides by the mass without checking it. */
  function NewBody(location: Vec3, mass: real, sphereRadius: real): (b: Body)
    requires mass != 0.0
    ensures b.location == location && b.radius == sphereRadius
    ensures b.velocity == Zero && b.force == Zero
    ensures b.invMass * mass == 1.0
  {
    Body(location, Zero, Zero, 1.0 / mass, sphereRadius)
  }

  /** Semi-implicit Euler: the step moves the body by v*dt + a*dt*dt, where
      an explicit Euler step would move it by v*dt only. */
  lemma IntegrateIsSemiImplicit(b: Body, timeStep: real)
    ensures var a := Scale(b.force, b.invMass);
            b.Integrate(timeStep).velocity == Add(b.velocity, Scale(a, timeStep))
            && b.Integrate(timeStep).location
               == Add(Add(b.location, Scale(b.velocity, timeStep)), Scale(a, timeStep * timeStep))
  {
    var a := Scale(b.force, b.invMass);
    var r := b.Integrate(timeStep);
    assert r.location.x == b.location.x + b.velocity.x * timeStep + a.x * (timeStep * timeStep);
    assert r.location.y == b.location.y + b.velocity.y * timeStep + a.y * (timeStep * timeStep);
    assert r.location.z == b.location.z + b.velocity.z * timeStep + a.z * (timeStep * timeStep);
  }

  /** A body at rest with no force stays where it is. */
  lemma IntegrateAtRest(b: Body, timeStep: real)
    requires b.velocity == Zero && b.force == Zero
    ensures b.Integrate(timeStep) == b
  {
  }

  /** The squared form decides exactly what the source's comparison with
      glm::length decides, boundary included. */
  lemma IsCollidingWithMatchesLength(a: Body, b: Body, len: real)
    requires len >= 0.0 && len * len == Norm2(Sub(a.location, b.location))
    ensures a.IsCollidingWith(b) <==> a.radius + b.radius >= len
  {
    var reach := a.radius + b.radius;
    if reach >= 0.0 {
      SquareMonotone(len, reach);
    }
  }

  lemma IsCollidingWithSymmetric(a: Body, b: Body)
    ensures a.IsCollidingWith(b) <==> b.IsCollidingWith(a)
  {
    assert Sub(a.location, b.location) == Scale(Sub(b.location, a.location), -1.0);
  }

  /** The square-root-free response is the source's response along the unit
      contact normal. */
  lemma ResponseUsesContactNormal(a: Body, b: Body, len: real)
    requires len > 0.0 && len * len == Norm2(Sub(b.location, a.location))
    requires a.invMass + b.invMass != 0.0
    ensures a.PerformCollisionResponse(b) == Some(a.ImpulseAlong(b, a.ComputeContactNormal(b, len)))
  {
    var d := Sub(b.location, a.location);
    var n := a.ComputeContactNormal(b, len);
    var relative := Sub(b.velocity, a.velocity);
    assert n == Scale(d, 1.0 / len);
    DotScale(relative, d, 1.0 / len);
    ReciprocalScaleSign(len, Dot(relative, d));
    NormalImpulseMatches(a, b, len);
    ScaleScaleTo(d, 1.0 / len, -(1.0 + CoefficientOfRestitution) * Dot(relative, n) / (a.invMass + b.invMass),
                 a.ImpulseCoefficient(b));
  }

  /** The impulse scale along the unit normal d/len, seen along d, is the
      square-root-free coefficient. */
  lemma NormalImpulseMatches(a: Body, b: Body, len: real)
    requires len > 0.0 && len * len == Norm2(Sub(b.location, a.location))
    requires a.invMass + b.invMass != 0.0
    ensures Norm2(Sub(b.location, a.location)) != 0.0
    ensures (1.0 / len) * (-(1.0 + CoefficientOfRestitution)
                           * Dot(Sub(b.velocity, a.velocity), a.ComputeContactNormal(b, len))
                           / (a.invMass + b.invMass))
            == a.ImpulseCoefficient(b)
  {
    var d := Sub(b.location, a.location);
    var relative := Sub(b.velocity, a.velocity);
    ProductPositive(len, len);
    assert Norm2(d) * (a.invMass + b.invMass) != 0.0;
    assert a.ComputeContactNormal(b, len) == Scale(d, 1.0 / len);
    DotScale(relative, d, 1.0 / len);
    NormalCoefficient(CoefficientOfRestitution, Dot(relative, d), Dot(relative, a.ComputeContactNormal(b, len)),
                      len, Norm2(d), a.invMass + b.invMass, a.ImpulseCoefficient(b));
  }

  /** Bodies that are moving apart along the normal are left alone. */
  lemma SeparatingBodiesUnchanged(a: Body, b: Body)
    requires Norm2(Sub(b.location, a.location)) != 0.0
    requires Dot(Sub(b.velocity, a.velocity), Sub(b.location, a.location)) > 0.0
    ensures a.PerformCollisionResponse(b) == Some((a, b))
  {
  }

  /** The coefficient times both factors of its divisor gives back the
      numerator: (k (invMass_a + invMass_b)) |d|^2 == -(1 + e) (vrel . d). */
  lemma CoefficientTimesDivisor(a: Body, b: Body)
    requires Norm2(Sub(b.location, a.location)) != 0.0 && a.invMass + b.invMass != 0.0
    ensures (a.ImpulseCoefficient(b) * (a.invMass + b.invMass)) * Norm2(Sub(b.location, a.location))
            == -(1.0 + CoefficientOfRestitution) * Dot(Sub(b.velocity, a.velocity), Sub(b.location, a.location))
  {
    var nd, ims := Norm2(Sub(b.location, a.location)), a.invMass + b.invMass;
    var c := -(1.0 + CoefficientOfRestitution) * Dot(Sub(b.velocity, a.velocity), Sub(b.location, a.location));
    assert a.ImpulseCoefficient(b) == c / (nd * ims);
    CoefficientCancels(a.ImpulseCoefficient(b), c, nd, ims);
  }

  /** The response's impulse k*d satisfies the elastic condition
      2 (vrel . J) + (invMass_a + invMass_b) |J|^2 == 0. */
  lemma ResponseImpulseIsElastic(a: Body, b: Body)
    requires Norm2(Sub(b.location, a.location)) != 0.0 && a.invMass + b.invMass != 0.0
    ensures var impulse := Scale(Sub(b.location, a.location), a.ImpulseCoefficient(b));
            2.0 * (Dot(b.velocity, impulse) - Dot(a.velocity, impulse))
              + (a.invMass + b.invMass) * Norm2(impulse) == 0.0
  {
    var d := Sub(b.location, a.location);
    var k := a.ImpulseCoefficient(b);
    assert Norm2(d) * (a.invMass + b.invMass) != 0.0;
    DotScale(a.velocity, d, k);
    DotScale(b.velocity, d, k);
    Norm2Scale(d, k);
    DotSub(b.velocity, a.velocity, d);
    CoefficientTimesDivisor(a, b);
    ElasticCondition(CoefficientOfRestitution, Dot(a.velocity, Scale(d, k)), Dot(b.velocity, Scale(d, k)),
                     Norm2(Scale(d, k)), Dot(a.velocity, d), Dot(b.velocity, d), Norm2(d), k, a.invMass + b.invMass);
  }

  /** Restitution 1: the relative velocity along the normal is negated. */
  lemma ResponseNegatesNormalVelocity(a: Body, b: Body)
    requires Norm2(Sub(b.location, a.location)) != 0.0 && a.invMass + b.invMass != 0.0
    requires Dot(Sub(b.velocity, a.velocity), Sub(b.location, a.location)) <= 0.0
    ensures var r := a.PerformCollisionResponse(b).value;
            Dot(Sub(r.1.velocity, r.0.velocity), Sub(b.location, a.location))
            == -Dot(Sub(b.velocity, a.velocity), Sub(b.location, a.location))
  {
    var d := Sub(b.location, a.location);
    var relative := Sub(b.velocity, a.velocity);
    var k := a.ImpulseCoefficient(b);
    assert Norm2(d) * (a.invMass + b.invMass) != 0.0;
    ExchangeRelative(a.velocity, b.velocity, Scale(d, k), a.invMass, b.invMass);
    ScaleScale(d, k, a.invMass + b.invMass);
    DotAddScale(relative, d, k * (a.invMass + b.invMass));
    CoefficientTimesDivisor(a, b);
  }

  /** Mass-weighted momentum v/invMass, summed over two bodies. */
  function Momentum(a: Body, b: Body): Vec3
    requires a.invMass != 0.0 && b.invMass != 0.0
  {
    Add(Scale(a.velocity, 1.0 / a.invMass), Scale(b.velocity, 1.0 / b.invMass))
  }

  /** Twice the kinetic energy, |v|^2/invMass, summed over two bodies. */
  function Energy(a: Body, b: Body): real
    requires a.invMass != 0.0 && b.invMass != 0.0
  {
    Norm2(a.velocity) / a.invMass + Norm2(b.velocity) / b.invMass
  }

  /** Any impulse exchanged between two bodies conserves their momentum. */
  lemma ImpulseConservesMomentum(a: Body, b: Body, impulse: Vec3)
    requires a.invMass != 0.0 && b.invMass != 0.0
    ensures var r := a.ApplyImpulse(b, impulse);
            Momentum(r.0, r.1) == Momentum(a, b)
  {
    MomentumComponent(a.velocity.x, b.velocity.x, impulse.x, a.invMass, b.invMass);
    MomentumComponent(a.velocity.y, b.velocity.y, impulse.y, a.invMass, b.invMass);
    MomentumComponent(a.velocity.z, b.velocity.z, impulse.z, a.invMass, b.invMass);
  }

  /** The squared speeds after an impulse, expanded. */
  lemma ImpulseSpeeds(a: Body, b: Body, impulse: Vec3)
    ensures Norm2(a.ApplyImpulse(b, impulse).0.velocity)
            == Norm2(a.velocity) - 2.0 * a.invMass * Dot(a.velocity, impulse) + a.invMass * a.invMass * Norm2(impulse)
    ensures Norm2(a.ApplyImpulse(b, impulse).1.velocity)
            == Norm2(b.velocity) + 2.0 * b.invMass * Dot(b.velocity, impulse) + b.invMass * b.invMass * Norm2(impulse)
  {
    Norm2ShiftSub(a.velocity, impulse, a.invMass);
    Norm2Shift(b.velocity, impulse, b.invMass);
  }

  /** An impulse that meets the elastic condition conserves kinetic energy. */
  lemma ElasticImpulseConservesEnergy(a: Body, b: Body, impulse: Vec3)
    requires a.invMass != 0.0 && b.invMass != 0.0
    requires 2.0 * (Dot(b.velocity, impulse) - Dot(a.velocity, impulse))
             + (a.invMass + b.invMass) * Norm2(impulse) == 0.0
    ensures var r := a.ApplyImpulse(b, impulse);
            Energy(r.0, r.1) == Energy(a, b)
  {
    var r := a.ApplyImpulse(b, impulse);
    ImpulseSpeeds(a, b, impulse);
    EnergyBalance(Norm2(a.velocity), Norm2(b.velocity), Dot(a.velocity, impulse), Dot(b.velocity, impulse),
                  Norm2(impulse), a.invMass, b.invMass);
  }

  lemma ResponseConservesMomentum(a: Body, b: Body)
    requires a.invMass != 0.0 && b.invMass != 0.0 && a.invMass + b.invMass != 0.0
    requires Norm2(Sub(b.location, a.location)) != 0.0
    ensures var r := a.PerformCollisionResponse(b).value;
            Momentum(r.0, r.1) == Momentum(a, b)
  {
    var d := Sub(b.location, a.location);
    if Dot(Sub(b.velocity, a.velocity), d) <= 0.0 {
      ImpulseConservesMomentum(a, b, Scale(d, a.ImpulseCoefficient(b)));
    }
  }

  /** "No loss of energy": the elastic response conserves kinetic energy. */
  lemma ResponseConservesEnergy(a: Body, b: Body)
    requires a.invMass != 0.0 && b.invMass != 0.0 && a.invMass + b.invMass != 0.0
    requires Norm2(Sub(b.location, a.location)) != 0.0
    ensures var r := a.PerformCollisionResponse(b).value;
            Energy(r.0, r.1) == Energy(a, b)
  {
    var d := Sub(b.location, a.location);
    if Dot(Sub(b.velocity, a.velocity), d) <= 0.0 {
      ResponseImpulseIsElastic(a, b);
      ElasticImpulseConservesEnergy(a, b, Scale(d, a.ImpulseCoefficient(b)));
    }
  }

  /** A copied pair after the response phase. A degenerate pair (where the
      source computes NaN velocities) keeps its copies unchanged here. */
  function RespondPair(p: (Body, Body)): (Body, Body) {
    match p.0.PerformCollisionResponse(p.1)
    case Some(q) => q
    case None => p
  }

  function RespondAll(ps: seq<(Body, Body)>): (r: seq<(Body, Body)>)
    ensures |r| == |ps|
  {
    seq(|ps|, k requires 0 <= k < |ps| => RespondPair(ps[k]))
  }

  function IntegrateAll(bodies: seq<Body>, timeStep: real): (r: seq<Body>)
    ensures |r| == |bodies|
  {
    seq(|bodies|, k requires 0 <= k < |bodies| => bodies[k].Integrate(timeStep))
  }

  // ---- broad phase ----

  /** Every index pair names two of the n bodies. */
  predicate IndicesBelow(ix: seq<(nat, nat)>, n: nat) {
    forall k :: 0 <= k < |ix| ==> ix[k].0 < n && ix[k].1 < n
  }

  /** The index pair the inner loop records for body_a = bodies[i] and
      body_b = bodies[j]: none for the body itself or when they do not
      collide. */
  function Cell(bodies: seq<Body>, i: nat, j: nat): seq<(nat, nat)>
    requires i < |bodies| && j < |bodies|
  {
    if i != j && bodies[i].IsCollidingWith(bodies[j]) then [(i, j)] else []
  }

  /** The index pairs recorded by the nested loops of UpdatePotentialCollisions
      before they reach body_a = bodies[i], body_b = bodies[j], in visiting
      order; (|bodies|, 0) is the end of the pass. */
  function Scan(bodies: seq<Body>, i: nat, j: nat): (r: seq<(nat, nat)>)
    requires i <= |bodies| && j <= |bodies| && (i == |bodies| ==> j == 0)
    ensures IndicesBelow(r, |bodies|)
    decreases i, j
  {
    if j == 0 then (if i == 0 then [] else Scan(bodies, i - 1, |bodies|))
    else Scan(bodies, i, j - 1) + Cell(bodies, i, j - 1)
  }

  /** The index pairs of one whole pass. */
  function OverlapIndices(bodies: seq<Body>): (r: seq<(nat, nat)>)
    ensures IndicesBelow(r, |bodies|)
  {
    Scan(bodies, |bodies|, 0)
  }

  /** The body pairs named by index pairs, in order; emplace_back copies
      both bodies. */
  function Pairs(bodies: seq<Body>, ix: seq<(nat, nat)>): (r: seq<(Body, Body)>)
    requires IndicesBelow(ix, |bodies|)
    ensures |r| == |ix|
    ensures forall k :: 0 <= k < |ix| ==> r[k] == (bodies[ix[k].0], bodies[ix[k].1])
  {
    seq(|ix|, k requires 0 <= k < |ix| => (bodies[ix[k].0], bodies[ix[k].1]))
  }

  /** What one broad-phase pass appends to potential_collisions. */
  function BroadPhase(bodies: seq<Body>): seq<(Body, Body)> {
    Pairs(bodies, OverlapIndices(bodies))
  }

  predicate LexLess(p: (nat, nat), q: (nat, nat)) {
    p.0 < q.0 || (p.0 == q.0 && p.1 < q.1)
  }

  predicate LexSorted(ix: seq<(nat, nat)>) {
    forall a, b :: 0 <= a < b < |ix| ==> LexLess(ix[a], ix[b])
  }

  /** The pairs a pass records: two different bodies that collide. */
  predicate Overlapping(bodies: seq<Body>, q: (nat, nat)) {
    q.0 < |bodies| && q.1 < |bodies| && q.0 != q.1 && bodies[q.0].IsCollidingWith(bodies[q.1])
  }

  /** Every pair recorded by (i, j) has been passed and overlaps. */
  lemma {:induction false} ScanSound(bodies: seq<Body>, i: nat, j: nat, q: (nat, nat))
    requires i <= |bodies| && j <= |bodies| && (i == |bodies| ==> j == 0)
    requires q in Scan(bodies, i, j)
    ensures LexLess(q, (i, j)) && Overlapping(bodies, q)
    decreases i, j
  {
    if j == 0 {
      ScanSound(bodies, i - 1, |bodies|, q);
    } else if q in Scan(bodies, i, j - 1) {
      ScanSound(bodies, i, j - 1, q);
    } else {
      assert q in Cell(bodies, i, j - 1);
    }
  }

  /** Every overlapping pair the loops have passed by (i, j) is recorded. */
  lemma {:induction false} ScanComplete(bodies: seq<Body>, i: nat, j: nat, q: (nat, nat))
    requires i <= |bodies| && j <= |bodies| && (i == |bodies| ==> j == 0)
    requires LexLess(q, (i, j)) && Overlapping(bodies, q)
    ensures q in Scan(bodies, i, j)
    decreases i, j
  {
    if j == 0 {
      ScanComplete(bodies, i - 1, |bodies|, q);
    } else if q == (i, j - 1) {
      assert Cell(bodies, i, j - 1) == [q];
    } else {
      ScanComplete(bodies, i, j - 1, q);
    }
  }

  /** A pair has been recorded by (i, j) exactly when the loops have passed
      it, it names two different bodies, and those bodies collide. */
  lemma ScanMembers(bodies: seq<Body>, i: nat, j: nat, q: (nat, nat))
    requires i <= |bodies| && j <= |bodies| && (i == |bodies| ==> j == 0)
    ensures q in Scan(bodies, i, j) <==> LexLess(q, (i, j)) && Overlapping(bodies, q)
  {
    if q in Scan(bodies, i, j) {
      ScanSound(bodies, i, j, q);
    }
    if LexLess(q, (i, j)) && Overlapping(bodies, q) {
      ScanComplete(bodies, i, j, q);
    }
  }

  /** The broad phase records exactly the overlapping ordered pairs of
      distinct bodies, so an overlapping unordered pair appears as both
      (i, j) and (j, i). */
  lemma BroadPhaseRecordsBothOrders(bodies: seq<Body>, i: nat, j: nat)
    ensures (i, j) in OverlapIndices(bodies)
            <==> i < |bodies| && j < |bodies| && i != j && bodies[i].IsCollidingWith(bodies[j])
    ensures (i, j) in OverlapIndices(bodies) <==> (j, i) in OverlapIndices(bodies)
  {
    ScanMembers(bodies, |bodies|, 0, (i, j));
    ScanMembers(bodies, |bodies|, 0, (j, i));
    if i < |bodies| && j < |bodies| {
      IsCollidingWithSymmetric(bodies[i], bodies[j]);
    }
  }

  /** The inner loop records at most its own pair. */
  lemma CellShape(bodies: seq<Body>, i: nat, j: nat)
    requires i < |bodies| && j < |bodies|
    ensures |Cell(bodies, i, j)| <= 1
    ensures forall k :: 0 <= k < |Cell(bodies, i, j)| ==> Cell(bodies, i, j)[k] == (i, j)
  {
  }

  /** Every pair recorded by (i, j) comes before (i, j). */
  lemma {:induction false} ScanBefore(bodies: seq<Body>, i: nat, j: nat)
    requires i <= |bodies| && j <= |bodies| && (i == |bodies| ==> j == 0)
    ensures forall k :: 0 <= k < |Scan(bodies, i, j)| ==> LexLess(Scan(bodies, i, j)[k], (i, j))
    decreases i, j
  {
    if j == 0 {
      if i > 0 {
        ScanBefore(bodies, i - 1, |bodies|);
      }
    } else {
      ScanBefore(bodies, i, j - 1);
      var left, cell := Scan(bodies, i, j - 1), Cell(bodies, i, j - 1);
      CellShape(bodies, i, j - 1);
      assert Scan(bodies, i, j) == left + cell;
      forall k | 0 <= k < |left + cell|
        ensures LexLess((left + cell)[k], (i, j))
      {
        if k < |left| {
          assert (left + cell)[k] == left[k];
        } else {
          assert (left + cell)[k] == cell[k - |left|];
        }
      }
    }
  }

  /** The recorded pairs come in strictly increasing lexicographic order. */
  lemma {:induction false} ScanSorted(bodies: seq<Body>, i: nat, j: nat)
    requires i <= |bodies| && j <= |bodies| && (i == |bodies| ==> j == 0)
    ensures LexSorted(Scan(bodies, i, j))
    decreases i, j
  {
    if j == 0 {
      if i > 0 {
        ScanSorted(bodies, i - 1, |bodies|);
      }
    } else {
      ScanSorted(bodies, i, j - 1);
      var left, cell := Scan(bodies, i, j - 1), Cell(bodies, i, j - 1);
      ScanBefore(bodies, i, j - 1);
      CellShape(bodies, i, j - 1);
      assert Scan(bodies, i, j) == left + cell;
      forall a, b | 0 <= a < b < |left + cell|
        ensures LexLess((left + cell)[a], (left + cell)[b])
      {
        assert (left + cell)[a] == left[a];
        if b < |left| {
          assert (left + cell)[b] == left[b];
        } else {
          assert (left + cell)[b] == cell[b - |left|];
        }
      }
    }
  }

  /** One step of the inner loop appends the copies of the pair it records,
      if any, to what is already in the list. */
  lemma ScanStepPairs(bodies: seq<Body>, i: nat, j: nat, start: seq<(Body, Body)>)
    requires i < |bodies| && j < |bodies|
    ensures start + Pairs(bodies, Scan(bodies, i, j + 1))
            == start + Pairs(bodies, Scan(bodies, i, j))
               + (if i != j && bodies[i].IsCollidingWith(bodies[j]) then [(bodies[i], bodies[j])] else [])
  {
    var done := Scan(bodies, i, j);
    assert Scan(bodies, i, j + 1) == done + Cell(bodies, i, j);
    if i != j && bodies[i].IsCollidingWith(bodies[j]) {
      PairsAppend(bodies, done, (i, j));
      assert start + (Pairs(bodies, done) + [(bodies[i], bodies[j])])
             == start + Pairs(bodies, done) + [(bodies[i], bodies[j])];
    } else {
      assert done + Cell(bodies, i, j) == done;
    }
  }

  /** No ordered pair is recorded twice in one pass. */
  lemma BroadPhaseNoDuplicates(bodies: seq<Body>)
    ensures forall a, b :: 0 <= a < b < |OverlapIndices(bodies)|
              ==> OverlapIndices(bodies)[a] != OverlapIndices(bodies)[b]
  {
    ScanSorted(bodies, |bodies|, 0);
  }

  lemma PairsAppend(bodies: seq<Body>, ix: seq<(nat, nat)>, q: (nat, nat))
    requires IndicesBelow(ix, |bodies|) && q.0 < |bodies| && q.1 < |bodies|
    ensures IndicesBelow(ix + [q], |bodies|)
    ensures Pairs(bodies, ix + [q]) == Pairs(bodies, ix) + [(bodies[q.0], bodies[q.1])]
  {
    var l, r := Pairs(bodies, ix + [q]), Pairs(bodies, ix) + [(bodies[q.0], bodies[q.1])];
    assert |l| == |r|;
    forall k | 0 <= k < |l|
      ensures l[k] == r[k]
    {
      if k < |ix| {
        assert (ix + [q])[k] == ix[k];
      }
    }
  }

  /** nge::physics::Simulation. */
  class Simulation {
    var sphericalBodies: seq<Body>
    var potentialCollisions: seq<(Body, Body)>

    constructor ()
      ensures sphericalBodies == [] && potentialCollisions == []
    {
      sphericalBodies := [];
      potentialCollisions := [];
    }

    /** The broad-phase prepass: every ordered pair of distinct bodies that
        overlaps is appended (by copy); the list is not cleared first. */
    method UpdatePotentialCollisions()
      modifies this
      ensures sphericalBodies == old(sphericalBodies)
      ensures potentialCollisions == old(potentialCollisions) + BroadPhase(sphericalBodies)
    {
      var bodies := sphericalBodies;
      var i := 0;
      while i < |bodies|
        invariant 0 <= i <= |bodies|
        invariant sphericalBodies == bodies
        invariant potentialCollisions == old(potentialCollisions) + Pairs(bodies, Scan(bodies, i, 0))
      {
        UpdateRow(i, old(potentialCollisions));
        assert Scan(bodies, i + 1, 0) == Scan(bodies, i, |bodies|);
        i := i + 1;
      }
    }

    /** The inner loop of the prepass for body_a = sphericalBodies[i], on top
        of what the earlier rows appended to start. */
    method UpdateRow(i: nat, ghost start: seq<(Body, Body)>)
      requires i < |sphericalBodies|
      requires potentialCollisions == start + Pairs(sphericalBodies, Scan(sphericalBodies, i, 0))
      modifies this
      ensures sphericalBodies == old(sphericalBodies)
      ensures potentialCollisions == start + Pairs(sphericalBodies, Scan(sphericalBodies, i, |sphericalBodies|))
    {
      var bodies := sphericalBodies;
      var j: nat := 0;
      while j < |bodies|
        invariant j <= |bodies| && sphericalBodies == bodies
        invariant potentialCollisions == start + Pairs(bodies, Scan(bodies, i, j))
      {
        VisitPair(i, j, start);
        j := j + 1;
      }
    }

    /** The body of the inner loop for body_a = sphericalBodies[i] and
        body_b = sphericalBodies[j]: skip the body itself, append a copy of a
        colliding pair. */
    method VisitPair(i: nat, j: nat, ghost start: seq<(Body, Body)>)
      requires i < |sphericalBodies| && j < |sphericalBodies|
      requires potentialCollisions == start + Pairs(sphericalBodies, Scan(sphericalBodies, i, j))
      modifies this
      ensures sphericalBodies == old(sphericalBodies)
      ensures potentialCollisions == start + Pairs(sphericalBodies, Scan(sphericalBodies, i, j + 1))
    {
      ScanStepPairs(sphericalBodies, i, j, start);
      if i != j && sphericalBodies[i].IsCollidingWith(sphericalBodies[j]) {
        potentialCollisions := potentialCollisions + [(sphericalBodies[i], sphericalBodies[j])];
      }
    }

    /** Every stored body is integrated in place. */
    method UpdateDynamics(timeStep: real)
      modifies this
      ensures sphericalBodies == IntegrateAll(old(sphericalBodies), timeStep)
      ensures potentialCollisions == old(potentialCollisions)
    {
      var i := 0;
      while i < |sphericalBodies|
        invariant 0 <= i <= |sphericalBodies| == |old(sphericalBodies)|
        invariant potentialCollisions == old(potentialCollisions)
        invariant forall k :: 0 <= k < i ==> sphericalBodies[k] == old(sphericalBodies)[k].Integrate(timeStep)
        invariant forall k :: i <= k < |sphericalBodies| ==> sphericalBodies[k] == old(sphericalBodies)[k]
      {
        sphericalBodies := sphericalBodies[i := sphericalBodies[i].Integrate(timeStep)];
        i := i + 1;
      }
    }

    /** The response runs on the copies held in potential_collisions; the
        stored bodies are not touched. The time step is unused. */
    method PerformCollisionResponse(timeStep: real)
      modifies this
      ensures potentialCollisions == RespondAll(old(potentialCollisions))
      ensures sphericalBodies == old(sphericalBodies)
    {
      var i := 0;
      while i < |potentialCollisions|
        invariant 0 <= i <= |potentialCollisions| == |old(potentialCollisions)|
        invariant sphericalBodies == old(sphericalBodies)
        invariant forall k :: 0 <= k < i ==> potentialCollisions[k] == RespondPair(old(potentialCollisions)[k])
        invariant forall k :: i <= k < |potentialCollisions| ==> potentialCollisions[k] == old(potentialCollisions)[k]
      {
        var pair := potentialCollisions[i];
        var response := pair.0.PerformCollisionResponse(pair.1);
        if response.Some? {
          potentialCollisions := potentialCollisions[i := response.value];
        }
        i := i + 1;
      }
    }

    method Reset()
      modifies this
      ensures sphericalBodies == [] && potentialCollisions == []
    {
      sphericalBodies := [];
      potentialCollisions := [];
    }

    /** The id is the index the body is stored at: the count before insertion. */
    method AddSphericalBody(location: Vec3, mass: real, radius: real) returns (id: nat)
      requires mass != 0.0
      modifies this
      ensures id == |old(sphericalBodies)|
      ensures sphericalBodies == old(sphericalBodies) + [NewBody(location, mass, radius)]
      ensures id < |sphericalBodies| && sphericalBodies[id] == NewBody(location, mass, radius)
      ensures potentialCollisions == old(potentialCollisions)
    {
      id := |sphericalBodies|;
      sphericalBodies := sphericalBodies + [NewBody(location, mass, radius)];
    }

    /** Broad phase on the pre-integration bodies, then integration, then the
        response on every recorded copy (including those of earlier ticks,
        since only Reset clears the list). */
    method Tick(timeStep: real)
      modifies this
      ensures sphericalBodies == IntegrateAll(old(sphericalBodies), timeStep)
      ensures potentialCollisions
              == RespondAll(old(potentialCollisions) + BroadPhase(old(sphericalBodies)))
    {
      UpdatePotentialCollisions();
      UpdateDynamics(timeStep);
      PerformCollisionResponse(timeStep);
    }

    /** No bounds check in the source; an id must name a stored body. */
    method GetBodyLocation(id: nat) returns (location: Vec3)
      requires id < |sphericalBodies|
      ensures location == sphericalBodies[id].location
    {
      location := sphericalBodies[id].location;
    }
  }

  /** Ids restart at 0 after Reset, bodies are numbered in insertion order,
      and an id reads back the location the body was added at. */
  method ResetRestartsIds(sim: Simulation, p: Vec3, pMass: real, pRadius: real,
                          q: Vec3, qMass: real, qRadius: real)
    returns (first: nat, second: nat, at: Vec3)
    requires pMass != 0.0 && qMass != 0.0
    modifies sim
    ensures first == 0 && second == 1 && at == p
    ensures sim.sphericalBodies == [NewBody(p, pMass, pRadius), NewBody(q, qMass, qRadius)]
    ensures sim.potentialCollisions == []
  {
    sim.Reset();
    first := sim.AddSphericalBody(p, pMass, pRadius);
    second := sim.AddSphericalBody(q, qMass, qRadius);
    at := sim.GetBodyLocation(first);
  }
}
