/** The particle generator of the current game (neutron/particle_generator.cpp):
    a fixed pool of particles updated in place, respawning a few particles per
    update into the slots found by the shared cursor search, then ageing every
    particle and moving the live ones with a damped velocity. The values of
    rand() are inputs. */
module NeutronParticles {
  import opened Vectors
  import opened ParticlePool

  /** The offset `Update` uses when the caller gives none. */
  const DefaultOffset: Vec3 := Vec3(-5.0, -5.0, -5.0)

  /** The six values of rand() one respawn consumes: three for the position
      and three for the velocity. */
  datatype Draw = Draw(px: nat, py: nat, pz: nat, vx: nat, vy: nat, vz: nat)

  /** `respawnParticle`: a position within a 10-unit cube from the offset,
      full life, a velocity in half units; the colour is not touched. */
  function Respawn(p: Particle, d: Draw, offset: Vec3): Particle {
    p.(position := Vec3((d.px % 100) as real / 10.0 + offset.x,
                        (d.py % 100) as real / 10.0 + offset.y,
                        (d.pz % 100) as real / 10.0 + offset.z),
       life := 1.0,
       velocity := Vec3(((d.vx % 20) - 10) as real / 2.0,
                        ((d.vy % 20) - 10) as real / 2.0,
                        ((d.vz % 20) - 10) as real / 2.0))
  }

  /** A respawned position component lies in [offset, offset + 9.9] in steps
      of 0.1, and a velocity component is one of -5, -4.5, ..., 4.5. */
  predicate SpawnedCoordinate(c: real, offset: real) {
    exists n: int :: 0 <= n < 100 && c == Tenths(n) + offset
  }

  predicate SpawnedSpeed(v: real) {
    exists n: int :: -10 <= n < 10 && v == Halves(n)
  }

  function Halves(n: int): real {
    n as real / 2.0
  }

  lemma RespawnRanges(p: Particle, d: Draw, offset: Vec3)
    ensures Respawn(p, d, offset).life == 1.0
    ensures Respawn(p, d, offset).color == p.color
    ensures SpawnedCoordinate(Respawn(p, d, offset).position.x, offset.x)
    ensures SpawnedCoordinate(Respawn(p, d, offset).position.y, offset.y)
    ensures SpawnedCoordinate(Respawn(p, d, offset).position.z, offset.z)
    ensures SpawnedSpeed(Respawn(p, d, offset).velocity.x)
    ensures SpawnedSpeed(Respawn(p, d, offset).velocity.y)
    ensures SpawnedSpeed(Respawn(p, d, offset).velocity.z)
    ensures offset.x <= Respawn(p, d, offset).position.x <= offset.x + 9.9
    ensures -5.0 <= Respawn(p, d, offset).velocity.x <= 4.5
  {
    var r := Respawn(p, d, offset);
    assert r.position.x == Tenths(d.px % 100) + offset.x;
    assert r.position.y == Tenths(d.py % 100) + offset.y;
    assert r.position.z == Tenths(d.pz % 100) + offset.z;
    assert r.velocity.x == Halves((d.vx % 20) - 10);
    assert r.velocity.y == Halves((d.vy % 20) - 10);
    assert r.velocity.z == Halves((d.vz % 20) - 10);
  }

  /** The second loop of `Update` on one particle: age it by delta and, if it
      is still alive, damp its velocity by (1 - delta) and step backwards along
      the damped velocity. */
  function Decay(p: Particle, delta: real): Particle {
    var aged := p.(life := p.life - delta);
    if aged.life > 0.0 then
      var damped := aged.(velocity := Scale(aged.velocity, 1.0 - delta));
      damped.(position := Sub(damped.position, Scale(damped.velocity, delta)))
    else aged
  }

  /** The second loop of `Update`: this module's Decay on every slot. */
  function Decayed(ps: seq<Particle>, delta: real): (r: seq<Particle>)
    ensures |r| == |ps|
  {
    seq(|ps|, k requires 0 <= k < |ps| => Decay(ps[k], delta))
  }

  /** What an update does to each particle: its life drops by exactly delta;
      one that is still alive gets the damped velocity and the position
      stepped back by it; one that is dead keeps its position and velocity. */
  lemma DecayedParticles(ps: seq<Particle>, delta: real, k: nat)
    requires k < |ps|
    ensures Decayed(ps, delta)[k].life == ps[k].life - delta
    ensures Decayed(ps, delta)[k].color == ps[k].color
    ensures ps[k].life - delta > 0.0 ==>
              Decayed(ps, delta)[k].velocity == Scale(ps[k].velocity, 1.0 - delta) &&
              Decayed(ps, delta)[k].position == Sub(ps[k].position, Scale(Scale(ps[k].velocity, 1.0 - delta), delta))
    ensures ps[k].life - delta <= 0.0 ==>
              Decayed(ps, delta)[k].velocity == ps[k].velocity &&
              Decayed(ps, delta)[k].position == ps[k].position
  {
  }

  /** The outcome of the respawn loop: the pool, the cursor, and the slots
      handed out, in order. */
  datatype Spawned = Spawned(particles: seq<Particle>, last: nat, slots: seq<nat>)

  /** The first loop of `Update`: one cursor search and one respawn (this
      module's Respawn) per draw. */
  function RespawnAll(ps: seq<Particle>, last: nat, draws: seq<Draw>, offset: Vec3): (r: Spawned)
    requires last <= |ps| && (|ps| > 0 || draws == [])
    ensures |r.particles| == |ps| && r.last <= |ps| && |r.slots| == |draws|
    ensures forall k :: 0 <= k < |r.slots| ==> r.slots[k] < |ps|
    decreases |draws|
  {
    if draws == [] then Spawned(ps, last, [])
    else
      var i := FirstUnused(Lives(ps), last);
      FirstUnusedInRange(Lives(ps), last);
      var rest := RespawnAll(ps[i := Respawn(ps[i], draws[0], offset)], i, draws[1..], offset);
      Spawned(rest.particles, rest.last, [i] + rest.slots)
  }

  /** The slots are pairwise distinct and name dead particles of ps. */
  predicate DistinctDeadSlots(ps: seq<Particle>, s: seq<nat>) {
    (forall a, b :: 0 <= a < b < |s| ==> s[a] != s[b]) &&
    (forall a :: 0 <= a < |s| ==> s[a] < |ps| && Dead(ps[s[a]].life))
  }

  /** While enough dead slots remain, the respawns of one update land on
      distinct slots that were all dead before the update. */
  lemma {:induction false} RespawnsUseDistinctDeadSlots(ps: seq<Particle>, last: nat, draws: seq<Draw>, offset: Vec3)
    requires last <= |ps| && (|ps| > 0 || draws == [])
    requires CountDead(Lives(ps)) >= |draws|
    ensures DistinctDeadSlots(ps, RespawnAll(ps, last, draws, offset).slots)
    decreases |draws|
  {
    if draws != [] {
      var i := FirstUnused(Lives(ps), last);
      FirstUnusedWhenCounted(Lives(ps), last);
      var p := Respawn(ps[i], draws[0], offset);
      LivesUpdate(ps, i, p);
      CountDeadRevive(Lives(ps), i, p.life);
      RespawnsUseDistinctDeadSlots(ps[i := p], i, draws[1..], offset);
      SlotStep(ps, i, p, RespawnAll(ps[i := p], i, draws[1..], offset).slots);
    }
  }

  /** One respawn step of the lemma above: a dead slot brought to life is
      none of the slots handed out after it. */
  lemma SlotStep(ps: seq<Particle>, i: nat, p: Particle, rest: seq<nat>)
    requires i < |ps| && Dead(ps[i].life) && !Dead(p.life)
    requires DistinctDeadSlots(ps[i := p], rest)
    ensures DistinctDeadSlots(ps, [i] + rest)
  {
    var s := [i] + rest;
    forall a | 0 <= a < |rest|
      ensures rest[a] != i && Dead(ps[rest[a]].life)
    {
      assert Dead(ps[i := p][rest[a]].life);
    }
    forall a, b | 0 <= a < b < |s|
      ensures s[a] != s[b]
    {
      assert s[b] == rest[b - 1];
      if a > 0 {
        assert s[a] == rest[a - 1];
      }
    }
    forall a | 0 <= a < |s|
      ensures s[a] < |ps| && Dead(ps[s[a]].life)
    {
      if a > 0 {
        assert s[a] == rest[a - 1];
      }
    }
  }

  /** When every particle is alive, the first respawn of an update takes
      slot 0 although that particle is alive. */
  lemma AllAliveOverwritesSlotZero(ps: seq<Particle>, last: nat, draws: seq<Draw>, offset: Vec3)
    requires last <= |ps| && |ps| > 0 && draws != []
    requires forall k :: 0 <= k < |ps| ==> !Dead(ps[k].life)
    ensures RespawnAll(ps, last, draws, offset).slots[0] == 0
    ensures !Dead(ps[RespawnAll(ps, last, draws, offset).slots[0]].life)
  {
    FirstUnusedOrder(Lives(ps), last);
  }

  class Generator {
    const amount: nat
    const particles: array<Particle>
    /** The global `lastUsedParticle`, shared by every generator. */
    const cursor: Cursor

    predicate Valid()
      reads this
    {
      particles.Length == amount
    }

    /** The constructor with `init`: `amount` fresh, dead particles. */
    constructor(amount: nat, cursor: Cursor)
      ensures Valid() && this.amount == amount && this.cursor == cursor && fresh(particles)
      ensures forall k :: 0 <= k < amount ==> particles[k] == Fresh
    {
      this.amount := amount;
      this.cursor := cursor;
      var buffer := new Particle[amount];
      var i := 0;
      while i < amount
        invariant 0 <= i <= amount
        invariant forall k :: 0 <= k < i ==> buffer[k] == Fresh
        modifies buffer
      {
        buffer[i] := Fresh;
        i := i + 1;
      }
      particles := buffer;
    }

    /** `firstUnusedParticle`: the cursor search, which also moves the cursor
        to the slot it returns. The search reads slots below the cursor, so
        the cursor must not lie beyond this pool. */
    method FirstUnusedParticle() returns (r: nat)
      requires Valid() && cursor.last <= amount
      modifies cursor
      ensures r == FirstUnused(Lives(particles[..]), old(cursor.last))
      ensures cursor.last == r
      ensures amount > 0 ==> r < amount
    {
      ghost var lives := Lives(particles[..]);
      var start := cursor.last;
      FirstUnusedInRange(lives, start);
      var i := start;
      while i < amount
        invariant start <= i <= amount && cursor.last == start
        invariant FindDead(lives, start, amount) == FindDead(lives, i, amount)
      {
        if particles[i].life <= 0.0 {
          cursor.last := i;
          return i;
        }
        i := i + 1;
      }
      i := 0;
      while i < start
        invariant 0 <= i <= start && cursor.last == start
        invariant FindDead(lives, 0, start) == FindDead(lives, i, start)
      {
        if particles[i].life <= 0.0 {
          cursor.last := i;
          return i;
        }
        i := i + 1;
      }
      cursor.last := 0;
      return 0;
    }

    /** `respawnParticle` on the particle in slot k. */
    method RespawnParticle(k: nat, d: Draw, offset: Vec3)
      requires Valid() && k < amount
      modifies particles
      ensures particles[..] == old(particles[..])[k := Respawn(old(particles[k]), d, offset)]
    {
      var p := particles[k];
      p := p.(position := Vec3((d.px % 100) as real / 10.0 + offset.x,
                               (d.py % 100) as real / 10.0 + offset.y,
                               (d.pz % 100) as real / 10.0 + offset.z));
      p := p.(life := 1.0);
      p := p.(velocity := Vec3(((d.vx % 20) - 10) as real / 2.0,
                               ((d.vy % 20) - 10) as real / 2.0,
                               ((d.vz % 20) - 10) as real / 2.0));
      particles[k] := p;
    }

    /** `Update`: one respawn per draw, then every particle ages and the live
        ones move. An empty pool cannot take a respawn. */
    method Update(delta: real, newParticles: nat, offset: Vec3, draws: seq<Draw>)
      requires Valid() && |draws| == newParticles && cursor.last <= amount
      requires amount > 0 || newParticles == 0
      modifies particles, cursor
      ensures particles[..] == Decayed(RespawnAll(old(particles[..]), old(cursor.last), draws, offset).particles, delta)
      ensures cursor.last == RespawnAll(old(particles[..]), old(cursor.last), draws, offset).last
    {
      RespawnDraws(newParticles, offset, draws);
      DecayAll(delta);
    }

    /** The first loop of `Update`: one respawn per draw, each into the slot
        `FirstUnusedParticle` hands out. */
    method RespawnDraws(newParticles: nat, offset: Vec3, draws: seq<Draw>)
      requires Valid() && |draws| == newParticles && cursor.last <= amount
      requires amount > 0 || newParticles == 0
      modifies particles, cursor
      ensures particles[..] == RespawnAll(old(particles[..]), old(cursor.last), draws, offset).particles
      ensures cursor.last == RespawnAll(old(particles[..]), old(cursor.last), draws, offset).last
    {
      ghost var goal := RespawnAll(particles[..], cursor.last, draws, offset);
      var i := 0;
      while i < newParticles
        invariant 0 <= i <= newParticles && cursor.last <= amount
        invariant goal.particles == RespawnAll(particles[..], cursor.last, draws[i..], offset).particles
        invariant goal.last == RespawnAll(particles[..], cursor.last, draws[i..], offset).last
      {
        var unused := FirstUnusedParticle();
        RespawnParticle(unused, draws[i], offset);
        assert draws[i..][1..] == draws[i + 1..];
        i := i + 1;
      }
    }

    /** The second loop of `Update`: every particle ages. */
    method DecayAll(delta: real)
      requires Valid()
      modifies particles
      ensures particles[..] == Decayed(old(particles[..]), delta)
    {
      ghost var spawned := particles[..];
      var i := 0;
      while i < amount
        invariant 0 <= i <= amount
        invariant forall k :: 0 <= k < i ==> particles[k] == Decay(spawned[k], delta)
        invariant forall k :: i <= k < amount ==> particles[k] == spawned[k]
      {
        var p := particles[i];
        p := p.(life := p.life - delta);
        if p.life > 0.0 {
          p := p.(velocity := Scale(p.velocity, 1.0 - delta));
          p := p.(position := Sub(p.position, Scale(p.velocity, delta)));
        }
        particles[i] := p;
        i := i + 1;
      }
    }
  }
}
