/** The slot search shared by both particle generators: a cursor remembers
    the last slot handed out, the search looks for a dead particle (life at
    most zero) from the cursor to the end, then from the start up to the
    cursor, and falls back to slot 0 when every particle is alive. Both
    generators model a particle pool by the sequence of its lives. */
module ParticlePool {
  import opened Wrappers
  import opened Vectors

  /** A glm::vec4 colour. */
  datatype Rgba = Rgba(r: real, g: real, b: real, a: real)

  /** The global `lastUsedParticle`: one cursor shared by every generator. */
  class Cursor {
    var last: nat

    constructor()
      ensures last == 0
    {
      last := 0;
    }
  }

  predicate Dead(life: real) {
    life <= 0.0
  }

  /** The first dead slot in [lo, hi), if there is one. */
  function FindDead(lives: seq<real>, lo: nat, hi: nat): (r: Option<nat>)
    requires hi <= |lives|
    ensures r.Some? ==> lo <= r.value < hi && Dead(lives[r.value])
    ensures r.Some? ==> forall k :: lo <= k < r.value ==> !Dead(lives[k])
    ensures r.None? ==> forall k :: lo <= k < hi ==> !Dead(lives[k])
    decreases hi - lo
  {
    if lo >= hi then None
    else if Dead(lives[lo]) then Some(lo)
    else FindDead(lives, lo + 1, hi)
  }

  /** The slot `firstUnusedParticle` hands out for the given cursor. */
  function FirstUnused(lives: seq<real>, last: nat): nat
    requires last <= |lives|
  {
    match FindDead(lives, last, |lives|)
    case Some(i) => i
    case None =>
      match FindDead(lives, 0, last)
      case Some(i) => i
      case None => 0
  }

  /** The search order, stated without the search: a dead slot at or after
      the cursor wins, the earliest one; otherwise the earliest dead slot
      before the cursor; otherwise slot 0. */
  lemma FirstUnusedOrder(lives: seq<real>, last: nat)
    requires last <= |lives|
    ensures (exists k :: last <= k < |lives| && Dead(lives[k])) ==>
              var r := FirstUnused(lives, last);
              last <= r < |lives| && Dead(lives[r]) && forall k :: last <= k < r ==> !Dead(lives[k])
    ensures (forall k :: last <= k < |lives| ==> !Dead(lives[k])) && (exists k :: 0 <= k < last && Dead(lives[k])) ==>
              var r := FirstUnused(lives, last);
              r < last && Dead(lives[r]) && forall k :: 0 <= k < r ==> !Dead(lives[k])
    ensures (forall k :: 0 <= k < |lives| ==> !Dead(lives[k])) ==> FirstUnused(lives, last) == 0
  {
    var upper := FindDead(lives, last, |lives|);
    if upper.None? {
      var lower := FindDead(lives, 0, last);
      if lower.None? {
        assert forall k :: 0 <= k < |lives| ==> !Dead(lives[k]) by {
          forall k | 0 <= k < |lives|
            ensures !Dead(lives[k])
          {
            if k < last {
            } else {
            }
          }
        }
      }
    }
  }

  /** The slot handed out is in range whenever the pool is not empty, and
      it is a dead slot whenever one exists. */
  lemma FirstUnusedInRange(lives: seq<real>, last: nat)
    requires last <= |lives|
    ensures |lives| > 0 ==> FirstUnused(lives, last) < |lives|
    ensures (exists k :: 0 <= k < |lives| && Dead(lives[k])) ==> Dead(lives[FirstUnused(lives, last)])
  {
    if exists k :: 0 <= k < |lives| && Dead(lives[k]) {
      var k :| 0 <= k < |lives| && Dead(lives[k]);
      FirstUnusedOrder(lives, last);
      if k < last {
        if FindDead(lives, last, |lives|).None? {
          assert FindDead(lives, 0, last).Some?;
        }
      }
    }
  }

  /** The number of dead slots. */
  function CountDead(lives: seq<real>): (r: nat)
    ensures r <= |lives|
  {
    if lives == [] then 0
    else (if Dead(lives[0]) then 1 else 0) + CountDead(lives[1..])
  }

  /** A pool with a dead slot counts at least one. */
  lemma {:induction false} CountDeadPositive(lives: seq<real>, k: nat)
    requires k < |lives| && Dead(lives[k])
    ensures CountDead(lives) > 0
  {
    if k > 0 {
      CountDeadPositive(lives[1..], k - 1);
    }
  }

  /** Bringing one dead slot to life removes exactly one from the count. */
  lemma {:induction false} CountDeadRevive(lives: seq<real>, k: nat, life: real)
    requires k < |lives| && Dead(lives[k]) && !Dead(life)
    ensures CountDead(lives[k := life]) == CountDead(lives) - 1
  {
    if k > 0 {
      assert lives[k := life][1..] == lives[1..][k - 1 := life];
      CountDeadRevive(lives[1..], k - 1, life);
    } else {
      assert lives[k := life][1..] == lives[1..];
    }
  }

  /** A pool that counts a dead slot hands out a dead slot. */
  lemma FirstUnusedWhenCounted(lives: seq<real>, last: nat)
    requires last <= |lives| && CountDead(lives) > 0
    ensures FirstUnused(lives, last) < |lives| && Dead(lives[FirstUnused(lives, last)])
  {
    if forall k :: 0 <= k < |lives| ==> !Dead(lives[k]) {
      CountDeadNone(lives);
    }
    FirstUnusedInRange(lives, last);
  }

  lemma {:induction false} CountDeadNone(lives: seq<real>)
    requires forall k :: 0 <= k < |lives| ==> !Dead(lives[k])
    ensures CountDead(lives) == 0
  {
    if lives != [] {
      CountDeadNone(lives[1..]);
    }
  }

  /** rand() % m scaled to tenths, as both respawns scale their draws. */
  function Tenths(n: int): real {
    n as real / 10.0
  }

  /** A particle of either generator; both headers declare the same struct. */
  datatype Particle = Particle(position: Vec3, velocity: Vec3, color: Rgba, life: real)

  /** `Particle()`: at the origin, at rest, white, dead. */
  const Fresh: Particle := Particle(Zero, Zero, Rgba(1.0, 1.0, 1.0, 1.0), 0.0)

  /** The lives of a pool, the view the slot search works on. */
  function Lives(ps: seq<Particle>): (r: seq<real>)
    ensures |r| == |ps|
    ensures forall k :: 0 <= k < |ps| ==> r[k] == ps[k].life
  {
    seq(|ps|, k requires 0 <= k < |ps| => ps[k].life)
  }

  lemma LivesUpdate(ps: seq<Particle>, i: nat, p: Particle)
    requires i < |ps|
    ensures Lives(ps[i := p]) == Lives(ps)[i := p.life]
  {
  }

  /** A pool made of fresh particles is all dead. */
  lemma {:induction false} FreshPoolIsDead(ps: seq<Particle>)
    requires forall k :: 0 <= k < |ps| ==> ps[k] == Fresh
    ensures CountDead(Lives(ps)) == |ps|
  {
    if ps != [] {
      FreshPoolIsDead(ps[1..]);
      assert Lives(ps)[1..] == Lives(ps[1..]);
    }
  }
}
