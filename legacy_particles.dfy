/** The older particle generator (src/neutron/particle_generator.cpp): the
    same pool and cursor search as the current one, but respawned particles
    are grey-scale, spread along x only, and drift with a fixed velocity while
    their alpha fades. The values of rand() are inputs. */
module LegacyParticles {
  import opened Vectors
  import opened ParticlePool

  /** The offset `Update` uses when the caller gives none. */
  const DefaultOffset: Vec3 := Zero

  /** The four values of rand() one respawn consumes: the x spread, the grey
      level, and the x and z speeds. */
  datatype Draw = Draw(spread: nat, grey: nat, vx: nat, vz: nat)

  function Hundredths(n: int): real {
    n as real / 100.0
  }

  /** `respawnParticle`. */
  function Respawn(p: Particle, d: Draw, offset: Vec3): Particle {
    var shade := 0.5 + Hundredths(d.grey % 100);
    Particle(Vec3(Tenths((d.spread % 100) - 50) + offset.x, offset.y, offset.z),
             Vec3(Tenths((d.vx % 200) - 100), 0.1 / 10.0, Tenths((d.vz % 200) - 100)),
             Rgba(shade, shade, shade, 1.0),
             1.0)
  }

  /** A respawned particle: full life and opacity, one grey level in
      [0.5, 1.49] for r, g and b, an x position within [-5, 4.9] of the
      offset (y and z exactly the offset's), a y speed of 0.01 and x and z
      speeds in [-10, 9.9], all in steps of a tenth or a hundredth. */
  lemma RespawnRanges(p: Particle, d: Draw, offset: Vec3)
    ensures Respawn(p, d, offset).life == 1.0 && Respawn(p, d, offset).color.a == 1.0
    ensures Respawn(p, d, offset).color.r == Respawn(p, d, offset).color.g == Respawn(p, d, offset).color.b
    ensures exists n: int :: 0 <= n < 100 && Respawn(p, d, offset).color.r == 0.5 + Hundredths(n)
    ensures 0.5 <= Respawn(p, d, offset).color.r <= 1.49
    ensures exists n: int :: -50 <= n < 50 && Respawn(p, d, offset).position.x == Tenths(n) + offset.x
    ensures offset.x - 5.0 <= Respawn(p, d, offset).position.x <= offset.x + 4.9
    ensures Respawn(p, d, offset).position.y == offset.y && Respawn(p, d, offset).position.z == offset.z
    ensures Respawn(p, d, offset).velocity.y == 0.01
    ensures exists n: int :: -100 <= n < 100 && Respawn(p, d, offset).velocity.x == Tenths(n)
    ensures exists n: int :: -100 <= n < 100 && Respawn(p, d, offset).velocity.z == Tenths(n)
    ensures -10.0 <= Respawn(p, d, offset).velocity.x <= 9.9 && -10.0 <= Respawn(p, d, offset).velocity.z <= 9.9
  {
    var r := Respawn(p, d, offset);
    assert r.color.r == 0.5 + Hundredths(d.grey % 100);
    assert r.position.x == Tenths((d.spread % 100) - 50) + offset.x;
    assert r.velocity.x == Tenths((d.vx % 200) - 100);
    assert r.velocity.z == Tenths((d.vz % 200) - 100);
  }

  /** The second loop of `Update` on one particle: age it by delta and, if it
      is still alive, step it back along its velocity and fade it. */
  function Decay(p: Particle, delta: real): Particle {
    var aged := p.(life := p.life - delta);
    if aged.life > 0.0 then
      aged.(position := Sub(aged.position, Scale(aged.velocity, delta)),
            color := aged.color.(a := aged.color.a - delta * 2.5))
    else aged
  }

  /** The second loop of `Update`: this module's Decay on every slot. */
  function Decayed(ps: seq<Particle>, delta: real): (r: seq<Particle>)
    ensures |r| == |ps|
  {
    seq(|ps|, k requires 0 <= k < |ps| => Decay(ps[k], delta))
  }

  /** What an update does to each particle: its life drops by exactly delta
      and its velocity never changes; one that is still alive moves back by
      velocity times delta and loses 2.5 delta of alpha; one that is dead
      keeps its position and colour. */
  lemma DecayedParticles(ps: seq<Particle>, delta: real, k: nat)
    requires k < |ps|
    ensures Decayed(ps, delta)[k].life == ps[k].life - delta
    ensures Decayed(ps, delta)[k].velocity == ps[k].velocity
    ensures ps[k].life - delta > 0.0 ==>
              Decayed(ps, delta)[k].position == Sub(ps[k].position, Scale(ps[k].velocity, delta)) &&
              Decayed(ps, delta)[k].color == ps[k].color.(a := ps[k].color.a - 2.5 * delta)
    ensures ps[k].life - delta <= 0.0 ==>
              Decayed(ps, delta)[k].position == ps[k].position && Decayed(ps, delta)[k].color == ps[k].color
  {
  }

  /** The outcome of the respawn loop: the pool, the cursor, and the slots
      handed out, in order. */
  datatype Spawned = Spawned(particles: seq<Particle>, last: nat, slots: seq<nat>)

  /** The first loop of `Update`: one cursor search and one respawn (this
      module's Respawn) per draw. */
  function RespawnAll(ps: seq<Particle>, last: nat, draws: seq<Draw>, offset: Vec3): (r: Spawned)
    requires last <= |ps| && (|ps| > 0 || draws == [])
    ensures |r.particles| == |ps| && r.last <= |ps| && |r.slots| == |draws|
    ensures forall k :: 0 <= k < |r.slots| ==> r.slots[k] < |ps|
    decreases |draws|
  {
    if draws == [] then Spawned(ps, last, [])
    else
      var i := FirstUnused(Lives(ps), last);
      FirstUnusedInRange(Lives(ps), last);
      var rest := RespawnAll(ps[i := Respawn(ps[i], draws[0], offset)], i, draws[1..], offset);
      Spawned(rest.particles, rest.last, [i] + rest.slots)
  }

  /** A slot at full life keeps it through any further respawns: a respawn
      either leaves the slot alone or sets it to full life again. */
  lemma {:induction false} RespawnKeepsFullLife(ps: seq<Particle>, last: nat, draws: seq<Draw>, offset: Vec3, j: nat)
    requires last <= |ps| && (|ps| > 0 || draws == [])
    requires j < |ps| && ps[j].life == 1.0
    ensures RespawnAll(ps, last, draws, offset).particles[j].life == 1.0
    decreases |draws|
  {
    if draws != [] {
      var i := FirstUnused(Lives(ps), last);
      FirstUnusedInRange(Lives(ps), last);
      var ps' := ps[i := Respawn(ps[i], draws[0], offset)];
      RespawnKeepsFullLife(ps', i, draws[1..], offset, j);
    }
  }

  /** One update respawns exactly one particle per draw: every slot handed
      out holds a particle at full life afterwards, the first went through
      the cursor search of the old pool, and the cursor ends at the last. */
  lemma {:induction false} RespawnAllCount(ps: seq<Particle>, last: nat, draws: seq<Draw>, offset: Vec3)
    requires last <= |ps| && (|ps| > 0 || draws == [])
    ensures |RespawnAll(ps, last, draws, offset).slots| == |draws|
    ensures draws != [] ==> RespawnAll(ps, last, draws, offset).slots[0] == FirstUnused(Lives(ps), last)
    ensures draws != [] ==>
              var r := RespawnAll(ps, last, draws, offset);
              r.last == r.slots[|draws| - 1] && r.particles[r.last].life == 1.0
    ensures var r := RespawnAll(ps, last, draws, offset);
            forall k :: 0 <= k < |r.slots| ==> r.particles[r.slots[k]].life == 1.0
    decreases |draws|
  {
    if draws != [] {
      var i := FirstUnused(Lives(ps), last);
      FirstUnusedInRange(Lives(ps), last);
      var ps' := ps[i := Respawn(ps[i], draws[0], offset)];
      RespawnAllCount(ps', i, draws[1..], offset);
      if draws[1..] == [] {
        assert RespawnAll(ps', i, draws[1..], offset) == Spawned(ps', i, []);
      }
      var r := RespawnAll(ps, last, draws, offset);
      var rest := RespawnAll(ps', i, draws[1..], offset);
      assert r.slots == [i] + rest.slots && r.particles == rest.particles;
      RespawnKeepsFullLife(ps', i, draws[1..], offset, i);
      forall k | 0 <= k < |r.slots| ensures r.particles[r.slots[k]].life == 1.0 {
        if k > 0 {
          assert r.slots[k] == rest.slots[k - 1];
        }
      }
    }
  }

  class Generator {
    const amount: nat
    const particles: array<Particle>
    /** The global `lastUsedParticle`, shared by every generator. */
    const cursor: Cursor

    predicate Valid()
      reads this
    {
      particles.Length == amount
    }

    /** The constructor with `init`: `amount` fresh, dead particles. */
    constructor(amount: nat, cursor: Cursor)
      ensures Valid() && this.amount == amount && this.cursor == cursor && fresh(particles)
      ensures forall k :: 0 <= k < amount ==> particles[k] == Fresh
    {
      this.amount := amount;
      this.cursor := cursor;
      var buffer := new Particle[amount];
      var i := 0;
      while i < amount
        invariant 0 <= i <= amount
        invariant forall k :: 0 <= k < i ==> buffer[k] == Fresh
        modifies buffer
      {
        buffer[i] := Fresh;
        i := i + 1;
      }
      particles := buffer;
    }

    /** `firstUnusedParticle`, moving the shared cursor to the slot it
        returns. The search reads slots below the cursor, so the cursor must
        not lie beyond this pool. */
    method FirstUnusedParticle() returns (r: nat)
      requires Valid() && cursor.last <= amount
      modifies cursor
      ensures r == FirstUnused(Lives(particles[..]), old(cursor.last))
      ensures cursor.last == r
      ensures amount > 0 ==> r < amount
    {
      ghost var lives := Lives(particles[..]);
      var start := cursor.last;
      FirstUnusedInRange(lives, start);
      var i := start;
      while i < amount
        invariant start <= i <= amount && cursor.last == start
        invariant FindDead(lives, start, amount) == FindDead(lives, i, amount)
      {
        if particles[i].life <= 0.0 {
          cursor.last := i;
          return i;
        }
        i := i + 1;
      }
      i := 0;
      while i < start
        invariant 0 <= i <= start && cursor.last == start
        invariant FindDead(lives, 0, start) == FindDead(lives, i, start)
      {
        if particles[i].life <= 0.0 {
          cursor.last := i;
          return i;
        }
        i := i + 1;
      }
      cursor.last := 0;
      return 0;
    }

    /** `respawnParticle` on the particle in slot k. */
    method RespawnParticle(k: nat, d: Draw, offset: Vec3)
      requires Valid() && k < amount
      modifies particles
      ensures particles[..] == old(particles[..])[k := Respawn(old(particles[k]), d, offset)]
    {
      var shade := 0.5 + Hundredths(d.grey % 100);
      var p := particles[k];
      p := p.(position := Vec3(Tenths((d.spread % 100) - 50) + offset.x, offset.y, offset.z));
      p := p.(color := Rgba(shade, shade, shade, 1.0));
      p := p.(life := 1.0);
      p := p.(velocity := Vec3(Tenths((d.vx % 200) - 100), 0.1 / 10.0, Tenths((d.vz % 200) - 100)));
      particles[k] := p;
    }

    /** `Update`: one respawn per draw, then every particle ages and the live
        ones move and fade. An empty pool cannot take a respawn. */
    method Update(delta: real, newParticles: nat, offset: Vec3, draws: seq<Draw>)
      requires Valid() && |draws| == newParticles && cursor.last <= amount
      requires amount > 0 || newParticles == 0
      modifies particles, cursor
      ensures particles[..] == Decayed(RespawnAll(old(particles[..]), old(cursor.last), draws, offset).particles, delta)
      ensures cursor.last == RespawnAll(old(particles[..]), old(cursor.last), draws, offset).last
    {
      RespawnDraws(newParticles, offset, draws);
      DecayAll(delta);
    }

    /** The first loop of `Update`: one respawn per draw, each into the slot
        `FirstUnusedParticle` hands out. */
    method RespawnDraws(newParticles: nat, offset: Vec3, draws: seq<Draw>)
      requires Valid() && |draws| == newParticles && cursor.last <= amount
      requires amount > 0 || newParticles == 0
      modifies particles, cursor
      ensures particles[..] == RespawnAll(old(particles[..]), old(cursor.last), draws, offset).particles
      ensures cursor.last == RespawnAll(old(particles[..]), old(cursor.last), draws, offset).last
    {
      ghost var goal := RespawnAll(particles[..], cursor.last, draws, offset);
      var i := 0;
      while i < newParticles
        invariant 0 <= i <= newParticles && cursor.last <= amount
        invariant goal.particles == RespawnAll(particles[..], cursor.last, draws[i..], offset).particles
        invariant goal.last == RespawnAll(particles[..], cursor.last, draws[i..], offset).last
      {
        var unused := FirstUnusedParticle();
        RespawnParticle(unused, draws[i], offset);
        assert draws[i..][1..] == draws[i + 1..];
        i := i + 1;
      }
    }

    /** The second loop of `Update`: every particle ages. */
    method DecayAll(delta: real)
      requires Valid()
      modifies particles
      ensures particles[..] == Decayed(old(particles[..]), delta)
    {
      ghost var spawned := particles[..];
      var i := 0;
      while i < amount
        invariant 0 <= i <= amount
        invariant forall k :: 0 <= k < i ==> particles[k] == Decay(spawned[k], delta)
        invariant forall k :: i <= k < amount ==> particles[k] == spawned[k]
      {
        var p := particles[i];
        p := p.(life := p.life - delta);
        if p.life > 0.0 {
          p := p.(position := Sub(p.position, Scale(p.velocity, delta)));
          p := p.(color := p.color.(a := p.color.a - delta * 2.5));
        }
        particles[i] := p;
        i := i + 1;
      }
    }
  }
}
