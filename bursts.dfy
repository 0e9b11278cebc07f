/** The burst field: short-lived sprays of particles spawned on perfect drops and
    on growth. A particle's position is a closed-form function of the burst's
    age, a particle freezes once the age passes its lifetime, the burst fades out
    linearly, and it is dropped once it reaches its maximum age. */
module Bursts {
  import opened Config
  import opened Geometry
  import opened Sequences

  /** One particle's fixed random draws: its initial velocity and its lifetime. */
  datatype Particle = Particle(velocity: Vec3, lifetime: real)

  /** A burst: where it was spawned, its colour, its particles with their current
      positions relative to the origin, its age and its material's opacity. */
  datatype Burst = Burst(origin: Vec3, color: string, particles: seq<Particle>,
                         positions: seq<Vec3>, age: real, opacity: real)
  {
    predicate WellFormed() { |positions| == |particles| }
  }

  /** spawnBurstAt: every particle at the origin, age zero, full opacity. */
  function NewBurst(origin: Vec3, color: string, draws: seq<Particle>): (b: Burst)
    ensures b.WellFormed() && b.particles == draws && b.origin == origin
    ensures b.age == 0.0 && b.opacity == BurstOpacity
    // Every particle starts where the closed form puts it at age zero.
    ensures forall i :: 0 <= i < |b.positions| ==> b.positions[i] == ParticleOffset(draws[i].velocity, 0.0)
  {
    Burst(origin, color, draws, seq(|draws|, _ => Vec3(0.0, 0.0, 0.0)), 0.0, BurstOpacity)
  }

  /** The fade factor of a burst of the given age. */
  function Fade(age: real): (f: real)
    ensures 0.0 <= f <= 1.0
    ensures age <= 0.0 ==> f == 1.0
    ensures age >= BurstFadeAge ==> f == 0.0
    ensures 0.0 <= age <= BurstFadeAge ==> f * BurstFadeAge == BurstFadeAge - age
  {
    Clamp(1.0 - age / BurstFadeAge, 0.0, 1.0)
  }

  /** Where a particle launched with velocity `v` is at age `t`: the velocity times
      `t`, with a downward term in `t` squared on the vertical axis. */
  function ParticleOffset(v: Vec3, t: real): Vec3 {
    Vec3(v.x * t, (v.y - BurstDrop * t) * t, v.z * t)
  }

  /** The new position of one particle at burst age `age`: frozen where it was once
      the age has passed its lifetime, otherwise given by the closed form. */
  function AgedPosition(p: Particle, previous: Vec3, age: real): Vec3 {
    if age > p.lifetime then previous else ParticleOffset(p.velocity, age)
  }

  function AgedPositions(particles: seq<Particle>, positions: seq<Vec3>, age: real): (r: seq<Vec3>)
    requires |particles| == |positions|
    ensures |r| == |positions|
  {
    seq(|positions|, i requires 0 <= i < |positions| => AgedPosition(particles[i], positions[i], age))
  }

  /** The inner loop of updateParticles over one burst's particles, writing each
      live particle's position and skipping the frozen ones. */
  method UpdatePositions(particles: seq<Particle>, positions: seq<Vec3>, age: real) returns (next: seq<Vec3>)
    requires |particles| == |positions|
    ensures next == AgedPositions(particles, positions, age)
  {
    next := positions;
    var i := 0;
    while i < |particles|
      invariant 0 <= i <= |particles| == |next|
      invariant forall k :: 0 <= k < i ==> next[k] == AgedPosition(particles[k], positions[k], age)
      invariant forall k :: i <= k < |next| ==> next[k] == positions[k]
    {
      var life := particles[i].lifetime;
      if age > life {
        i := i + 1;
        continue;
      }
      next := next[i := ParticleOffset(particles[i].velocity, age)];
      i := i + 1;
    }
  }

  /** One frame of `dt` seconds for one burst. */
  function AgeBurst(b: Burst, dt: real): (r: Burst)
    requires b.WellFormed()
    ensures r.WellFormed() && |r.particles| == |b.particles|
    // Opacity fades from full to zero; a burst old enough to have faded out is
    // invisible for the rest of the time it is kept.
    ensures 0.0 <= r.opacity <= BurstOpacity
    ensures r.age >= BurstFadeAge ==> r.opacity == 0.0
    // The age grows by the frame delta, the opacity follows the linear fade and
    // the particles move to their positions at the new age; nothing else changes.
    ensures r.age == b.age + dt && r.opacity == BurstOpacity * Fade(r.age)
    ensures r.particles == b.particles && r.origin == b.origin && r.color == b.color
    ensures r.positions == AgedPositions(b.particles, b.positions, r.age)
  {
    var age := b.age + dt;
    b.(age := age, opacity := BurstOpacity * Fade(age), positions := AgedPositions(b.particles, b.positions, age))
  }

  predicate Alive(b: Burst) { b.age < BurstMaxAge }

  predicate AllWellFormed(bursts: seq<Burst>) {
    forall k :: 0 <= k < |bursts| ==> bursts[k].WellFormed()
  }

  function AgeAll(bursts: seq<Burst>, dt: real): (r: seq<Burst>)
    requires AllWellFormed(bursts)
    ensures |r| == |bursts| && AllWellFormed(r)
  {
    seq(|bursts|, k requires 0 <= k < |bursts| => AgeBurst(bursts[k], dt))
  }

  /** The burst list after one frame: every burst aged, and only those still
      younger than the maximum age kept, in their original order. */
  function LiveBursts(bursts: seq<Burst>, dt: real): seq<Burst>
    requires AllWellFormed(bursts)
  {
    Filter(AgeAll(bursts, dt), Alive)
  }

  /** The bursts kept after a frame are exactly the aged bursts younger than the
      maximum age, and each of them is still well formed. */
  lemma LiveBurstsExactly(bursts: seq<Burst>, dt: real)
    requires AllWellFormed(bursts)
    ensures forall k :: 0 <= k < |LiveBursts(bursts, dt)| ==>
              LiveBursts(bursts, dt)[k].age < BurstMaxAge && LiveBursts(bursts, dt)[k] in AgeAll(bursts, dt)
    ensures forall k :: 0 <= k < |bursts| && AgeBurst(bursts[k], dt).age < BurstMaxAge ==>
              AgeBurst(bursts[k], dt) in LiveBursts(bursts, dt)
    ensures AllWellFormed(LiveBursts(bursts, dt))
  {
    var aged := AgeAll(bursts, dt);
    FilterExactly(aged, Alive);
    forall k | 0 <= k < |bursts| && AgeBurst(bursts[k], dt).age < BurstMaxAge
      ensures AgeBurst(bursts[k], dt) in LiveBursts(bursts, dt)
    {
      assert aged[k] == AgeBurst(bursts[k], dt);
    }
  }

  /** Ageing a burst through a series of frames. */
  function AgeThrough(b: Burst, dts: seq<real>): (r: Burst)
    requires b.WellFormed()
    ensures r.WellFormed() && |r.particles| == |b.particles| && r.particles == b.particles
    decreases |dts|
  {
    if dts == [] then b else AgeThrough(AgeBurst(b, dts[0]), dts[1..])
  }

  function Sum(dts: seq<real>): real
    decreases |dts|
  {
    if dts == [] then 0.0 else dts[0] + Sum(dts[1..])
  }

  /** A burst's age is the total time of the frames it has lived through. */
  lemma {:induction false} AgeIsElapsedTime(b: Burst, dts: seq<real>)
    requires b.WellFormed()
    ensures AgeThrough(b, dts).age == b.age + Sum(dts)
    decreases |dts|
  {
    if dts != [] {
      AgeIsElapsedTime(AgeBurst(b, dts[0]), dts[1..]);
    }
  }

  /** A particle that has outlived its lifetime stays where it is for every later
      frame, since frame deltas are never negative. */
  lemma {:induction false} FrozenParticleStaysPut(b: Burst, dts: seq<real>, i: nat)
    requires b.WellFormed() && i < |b.particles|
    requires b.age > b.particles[i].lifetime
    requires forall k :: 0 <= k < |dts| ==> dts[k] >= 0.0
    ensures AgeThrough(b, dts).positions[i] == b.positions[i]
    decreases |dts|
  {
    if dts != [] {
      var next := AgeBurst(b, dts[0]);
      assert next.positions[i] == b.positions[i];
      FrozenParticleStaysPut(next, dts[1..], i);
    }
  }

  /** After at least one frame, a particle still within its lifetime is exactly at
      the closed-form point for the burst's age, whatever its earlier positions
      were: positions are not integrated from a running value. */
  lemma {:induction false} LiveParticleClosedForm(b: Burst, dts: seq<real>, i: nat)
    requires b.WellFormed() && i < |b.particles| && dts != []
    requires AgeThrough(b, dts).age <= b.particles[i].lifetime
    ensures AgeThrough(b, dts).positions[i] == ParticleOffset(b.particles[i].velocity, AgeThrough(b, dts).age)
    decreases |dts|
  {
    var next := AgeBurst(b, dts[0]);
    if dts[1..] != [] {
      LiveParticleClosedForm(next, dts[1..], i);
    }
  }
}
