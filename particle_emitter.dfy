/** The particle emitter's pool and schedule (VROParticleEmitter.cpp): the
    emission cycle's running time and distance, the scheduled bursts, and
    the two particle lists, live particles and zombies kept for recycling.

    Clocks and random draws are parameters: `now` is the current time in
    milliseconds, `draws(i)` is the random count drawn for the i-th
    scheduled burst and `lifetimes(i)` the random life period drawn for the
    i-th particle spawned in a call. Positions, transforms and the
    appearance and physics modifiers are not part of this model. */
module ParticleEmitter {

  /** What a burst's checkpoint measures. */
  datatype Factor = Time | Distance

  /** A burst: when the checkpoint passes start, a random number of
      particles between min and max is emitted; start then moves on by the
      interval, for the given number of cycles. */
  datatype Burst = Burst(factor: Factor, start: real, min: int, max: int, interval: real, cycles: int)

  /** The bookkeeping part of a particle. */
  datatype Particle = Particle(spawnTime: real, lifePeriod: int, zombiePeriod: int,
                               killedTime: real, isZombie: bool, fixedToEmitter: bool)

  datatype Vec3 = Vec3(x: real, y: real, z: real)

  /** How long a zombie is kept for recycling, in milliseconds. */
  const ZombiePeriod := 500

  // ---------------------------------------------------------------------
  // Particle life cycle
  // ---------------------------------------------------------------------

  /** resetParticle: the particle starts a new life at now. */
  function Reset(p: Particle, now: real, life: int, fixed: bool): (r: Particle)
    ensures r.spawnTime == now && r.lifePeriod == life && r.zombiePeriod == ZombiePeriod
    ensures !r.isZombie && r.fixedToEmitter == fixed && r.killedTime == p.killedTime
  {
    p.(lifePeriod := life, zombiePeriod := ZombiePeriod, spawnTime := now,
       isZombie := false, fixedToEmitter := fixed)
  }

  /** A default-constructed particle. */
  const Blank := Particle(0.0, 0, 0, 0.0, false, false)

  /** A live particle dies once its life period has run out. */
  predicate Dies(p: Particle, now: real)
  {
    p.spawnTime + p.lifePeriod as real < now
  }

  /** A zombie is dropped once its zombie period has run out. */
  predicate Expires(p: Particle, now: real)
  {
    p.killedTime + p.zombiePeriod as real < now
  }

  /** Which list a cull pass walks. */
  datatype Cull = Dying | Expiring

  predicate Culled(c: Cull, p: Particle, now: real)
  {
    match c
    case Dying => Dies(p, now)
    case Expiring => Expires(p, now)
  }

  /** The particles a cull pass keeps, in order. */
  function Kept(c: Cull, ps: seq<Particle>, now: real): seq<Particle>
  {
    if |ps| == 0 then []
    else Kept(c, ps[..|ps| - 1], now) + (if Culled(c, ps[|ps| - 1], now) then [] else [ps[|ps| - 1]])
  }

  /** The particles a cull pass takes out, in order. */
  function Removed(c: Cull, ps: seq<Particle>, now: real): seq<Particle>
  {
    if |ps| == 0 then []
    else Removed(c, ps[..|ps| - 1], now) + (if Culled(c, ps[|ps| - 1], now) then [ps[|ps| - 1]] else [])
  }

  /** A dying particle turned into a zombie at now. */
  function Kill(p: Particle, now: real): (r: Particle)
    ensures r.isZombie && r.killedTime == now && r.spawnTime == p.spawnTime && r.lifePeriod == p.lifePeriod
  {
    p.(isZombie := true, killedTime := now)
  }

  function KillAll(ps: seq<Particle>, now: real): (r: seq<Particle>)
    ensures |r| == |ps|
  {
    seq(|ps|, i requires 0 <= i < |ps| => Kill(ps[i], now))
  }

  /** A cull pass splits the list: every particle is either kept or
      removed, kept ones are not culled and removed ones are. */
  lemma {:induction false} CullPartition(c: Cull, ps: seq<Particle>, now: real)
    ensures multiset(Kept(c, ps, now)) + multiset(Removed(c, ps, now)) == multiset(ps)
  {
    if |ps| > 0 {
      var n := |ps| - 1;
      CullPartition(c, ps[..n], now);
      assert ps == ps[..n] + [ps[n]];
      var kept, removed := Kept(c, ps[..n], now), Removed(c, ps[..n], now);
      if Culled(c, ps[n], now) {
        assert Kept(c, ps, now) == kept && Removed(c, ps, now) == removed + [ps[n]];
      } else {
        assert Kept(c, ps, now) == kept + [ps[n]] && Removed(c, ps, now) == removed;
      }
    }
  }

  /** Kept particles are not culled and removed ones are. */
  lemma {:induction false} CullSound(c: Cull, ps: seq<Particle>, now: real)
    ensures forall p :: p in Kept(c, ps, now) ==> !Culled(c, p, now)
    ensures forall p :: p in Removed(c, ps, now) ==> Culled(c, p, now)
  {
    if |ps| > 0 {
      CullSound(c, ps[..|ps| - 1], now);
    }
  }

  /** A cull pass never adds particles. */
  lemma {:induction false} KeptShrinks(c: Cull, ps: seq<Particle>, now: real)
    ensures |Kept(c, ps, now)| <= |ps|
  {
    if |ps| > 0 {
      KeptShrinks(c, ps[..|ps| - 1], now);
    }
  }

  /** One more particle walked by a cull pass. */
  lemma CullStep(c: Cull, ps: seq<Particle>, j: int, now: real)
    requires 0 <= j < |ps|
    ensures Kept(c, ps[..j + 1], now) == Kept(c, ps[..j], now) + (if Culled(c, ps[j], now) then [] else [ps[j]])
    ensures Removed(c, ps[..j + 1], now) == Removed(c, ps[..j], now) + (if Culled(c, ps[j], now) then [ps[j]] else [])
  {
    assert ps[..j + 1][..j] == ps[..j];
  }

  lemma KillAllSnoc(ps: seq<Particle>, p: Particle, now: real)
    ensures KillAll(ps + [p], now) == KillAll(ps, now) + [Kill(p, now)]
  {
  }

  // ---------------------------------------------------------------------
  // Spawning
  // ---------------------------------------------------------------------

  /** How many zombies spawnParticle recycles: one at a time from the front,
      stopping once the request is met. A request of zero or less still
      recycles the first zombie, because the count is checked only after
      a recycle. */
  function Recycles(n: int, zombies: int): (k: int)
    ensures 0 <= k <= zombies || zombies < 0
  {
    if zombies <= 0 then 0 else if n <= 1 then 1 else if n < zombies then n else zombies
  }

  /** The zombies zs, each starting a new life, with life periods
      lifetimes(from), lifetimes(from + 1), ... */
  function Revived(zs: seq<Particle>, now: real, lifetimes: nat -> int, from: nat, fixed: bool): (r: seq<Particle>)
    ensures |r| == |zs|
  {
    seq(|zs|, i requires 0 <= i < |zs| => Reset(zs[i], now, lifetimes(from + i), fixed))
  }

  /** The particles spawnParticle appends: the first Recycles(n) zombies
      revived, then new particles for whatever is still missing. */
  function Spawned(zombies: seq<Particle>, n: int, now: real, lifetimes: nat -> int, fixed: bool): seq<Particle>
  {
    var k := Recycles(n, |zombies|);
    var missing := if n > k then n - k else 0;
    Revived(zombies[..k], now, lifetimes, 0, fixed) + Revived(seq(missing, _ => Blank), now, lifetimes, k, fixed)
  }

  /** A positive request adds exactly that many particles, each starting
      its life at now and none a zombie. */
  lemma SpawnedCount(zombies: seq<Particle>, n: int, now: real, lifetimes: nat -> int, fixed: bool)
    ensures n >= 1 ==> |Spawned(zombies, n, now, lifetimes, fixed)| == n
    ensures n <= 0 ==> |Spawned(zombies, n, now, lifetimes, fixed)| == (if |zombies| > 0 then 1 else 0)
    ensures forall i :: 0 <= i < |Spawned(zombies, n, now, lifetimes, fixed)| ==>
      Spawned(zombies, n, now, lifetimes, fixed)[i].spawnTime == now
      && !Spawned(zombies, n, now, lifetimes, fixed)[i].isZombie
  {
  }

  lemma RevivedSnoc(zs: seq<Particle>, z: Particle, now: real, lifetimes: nat -> int, from: nat, fixed: bool)
    ensures Revived(zs + [z], now, lifetimes, from, fixed)
      == Revived(zs, now, lifetimes, from, fixed) + [Reset(z, now, lifetimes(from + |zs|), fixed)]
  {
  }

  lemma BlanksSnoc(m: nat)
    ensures seq(m + 1, _ => Blank) == seq(m, _ => Blank) + [Blank]
  {
  }

  lemma EmptyAppend<T>(x: seq<T>)
    ensures x + [] == x
  {
  }

  /** spawnParticle: zombies are recycled from the front of the zombie
      list, one per particle requested, returning as soon as the count is
      reached; whatever is still missing is made of new particles. */
  method SpawnInto(particles: seq<Particle>, zombies: seq<Particle>, n: int, now: real,
                   lifetimes: nat -> int, fixed: bool)
    returns (ps: seq<Particle>, zs: seq<Particle>)
    ensures ps == particles + Spawned(zombies, n, now, lifetimes, fixed)
    ensures zs == zombies[Recycles(n, |zombies|)..]
  {
    ps, zs := particles, zombies;
    var newParticles := n;
    while |zs| > 0
      invariant Recycling(particles, zombies, n, now, lifetimes, fixed, ps, zs, newParticles)
      decreases |zs|
    {
      RecycleStep(particles, zombies, n, now, lifetimes, fixed, ps, zs, newParticles);
      var particle := Reset(zs[0], now, lifetimes(n - newParticles), fixed);
      newParticles := newParticles - 1;
      ps := ps + [particle];
      zs := zs[1..];
      if newParticles <= 0 {
        RecycleStop(particles, zombies, n, now, lifetimes, fixed, ps, zs, newParticles);
        return;
      }
    }
    RecycleDone(particles, zombies, n, now, lifetimes, fixed, ps, zs, newParticles);
    if newParticles <= 0 {
      return;
    }
    var i := newParticles;
    while i > 0
      invariant Creating(particles, zombies, n, now, lifetimes, fixed, ps, i)
    {
      CreateStep(particles, zombies, n, now, lifetimes, fixed, ps, i);
      ps := ps + [Reset(Blank, now, lifetimes(n - i), fixed)];
      i := i - 1;
    }
    CreateDone(particles, zombies, n, now, lifetimes, fixed, ps, i);
  }

  /** The recycling loop has taken the first n - newParticles zombies. */
  ghost predicate Recycling(particles: seq<Particle>, zombies: seq<Particle>, n: int, now: real,
                            lifetimes: nat -> int, fixed: bool,
                            ps: seq<Particle>, zs: seq<Particle>, newParticles: int)
  {
    var r := n - newParticles;
    && 0 <= r <= |zombies| && zs == zombies[r..]
    && (r == 0 || (newParticles > 0 && r < Recycles(n, |zombies|) + 1))
    && ps == particles + Revived(zombies[..r], now, lifetimes, 0, fixed)
  }

  lemma RecycleStep(particles: seq<Particle>, zombies: seq<Particle>, n: int, now: real,
                    lifetimes: nat -> int, fixed: bool,
                    ps: seq<Particle>, zs: seq<Particle>, newParticles: int)
    requires Recycling(particles, zombies, n, now, lifetimes, fixed, ps, zs, newParticles) && |zs| > 0
    ensures var r := n - newParticles;
      && r >= 0 && zs[0] == zombies[r]
      && (newParticles - 1 > 0 ==> Recycling(particles, zombies, n, now, lifetimes, fixed,
            ps + [Reset(zs[0], now, lifetimes(r), fixed)], zs[1..], newParticles - 1))
      && ps + [Reset(zs[0], now, lifetimes(r), fixed)] == particles + Revived(zombies[..r + 1], now, lifetimes, 0, fixed)
      && zs[1..] == zombies[r + 1..]
  {
    var r := n - newParticles;
    assert zombies[..r + 1] == zombies[..r] + [zombies[r]];
    RevivedSnoc(zombies[..r], zombies[r], now, lifetimes, 0, fixed);
  }

  lemma RecycleStop(particles: seq<Particle>, zombies: seq<Particle>, n: int, now: real,
                    lifetimes: nat -> int, fixed: bool,
                    ps: seq<Particle>, zs: seq<Particle>, newParticles: int)
    requires newParticles <= 0 && 1 <= n - newParticles <= |zombies|
    requires newParticles == 0 || n - newParticles == 1
    requires ps == particles + Revived(zombies[..n - newParticles], now, lifetimes, 0, fixed)
    requires zs == zombies[n - newParticles..]
    ensures ps == particles + Spawned(zombies, n, now, lifetimes, fixed)
    ensures zs == zombies[Recycles(n, |zombies|)..]
  {
    EmptyAppend(Revived(zombies[..n - newParticles], now, lifetimes, 0, fixed));
  }

  lemma RecycleDone(particles: seq<Particle>, zombies: seq<Particle>, n: int, now: real,
                    lifetimes: nat -> int, fixed: bool,
                    ps: seq<Particle>, zs: seq<Particle>, newParticles: int)
    requires Recycling(particles, zombies, n, now, lifetimes, fixed, ps, zs, newParticles) && |zs| == 0
    ensures newParticles <= 0 ==>
      (ps == particles + Spawned(zombies, n, now, lifetimes, fixed) && zs == zombies[Recycles(n, |zombies|)..])
    ensures newParticles > 0 ==> Creating(particles, zombies, n, now, lifetimes, fixed, ps, newParticles)
  {
    EmptyAppend(ps);
  }

  /** The creating loop has i particles still to make. */
  ghost predicate Creating(particles: seq<Particle>, zombies: seq<Particle>, n: int, now: real,
                           lifetimes: nat -> int, fixed: bool, ps: seq<Particle>, i: int)
  {
    && 0 <= i <= n - |zombies| && Recycles(n, |zombies|) == |zombies|
    && ps == particles + Revived(zombies, now, lifetimes, 0, fixed)
                       + Revived(seq(n - |zombies| - i, _ => Blank), now, lifetimes, |zombies|, fixed)
  }

  lemma CreateStep(particles: seq<Particle>, zombies: seq<Particle>, n: int, now: real,
                   lifetimes: nat -> int, fixed: bool, ps: seq<Particle>, i: int)
    requires Creating(particles, zombies, n, now, lifetimes, fixed, ps, i) && i > 0
    ensures n - i >= 0
    ensures Creating(particles, zombies, n, now, lifetimes, fixed, ps + [Reset(Blank, now, lifetimes(n - i), fixed)], i - 1)
  {
    var m := n - |zombies| - i;
    BlanksSnoc(m);
    RevivedSnoc(seq(m, _ => Blank), Blank, now, lifetimes, |zombies|, fixed);
  }

  lemma CreateDone(particles: seq<Particle>, zombies: seq<Particle>, n: int, now: real,
                   lifetimes: nat -> int, fixed: bool, ps: seq<Particle>, i: int)
    requires Creating(particles, zombies, n, now, lifetimes, fixed, ps, i) && i <= 0
    ensures ps == particles + Spawned(zombies, n, now, lifetimes, fixed)
    ensures [] == zombies[Recycles(n, |zombies|)..]
  {
    assert zombies[..|zombies|] == zombies;
  }

  // ---------------------------------------------------------------------
  // Culling
  // ---------------------------------------------------------------------

  /** The erase-as-you-go walk has looked at the first j particles of
      orig: cur holds those kept, then the rest unwalked, and i points at
      the first unwalked one. */
  ghost predicate CullWalked(c: Cull, orig: seq<Particle>, now: real, j: int, cur: seq<Particle>, i: int)
  {
    0 <= j <= |orig| && cur == Kept(c, orig[..j], now) + orig[j..] && i == |Kept(c, orig[..j], now)|
  }

  lemma CullWalkStep(c: Cull, orig: seq<Particle>, now: real, j: int, cur: seq<Particle>, i: int)
    requires CullWalked(c, orig, now, j, cur, i) && i < |cur|
    ensures j < |orig| && cur[i] == orig[j]
    ensures Culled(c, orig[j], now) ==> CullWalked(c, orig, now, j + 1, cur[..i] + cur[i + 1..], i)
    ensures !Culled(c, orig[j], now) ==> CullWalked(c, orig, now, j + 1, cur, i + 1)
    ensures Removed(c, orig[..j + 1], now)
      == Removed(c, orig[..j], now) + (if Culled(c, orig[j], now) then [orig[j]] else [])
  {
    CullStep(c, orig, j, now);
    var kept := Kept(c, orig[..j], now);
    assert cur[..i] == kept;
    assert cur[i + 1..] == orig[j + 1..];
    EmptyAppend(kept);
  }

  lemma CullWalkDone(c: Cull, orig: seq<Particle>, now: real, j: int, cur: seq<Particle>, i: int)
    requires CullWalked(c, orig, now, j, cur, i) && i >= |cur|
    ensures j == |orig| && cur == Kept(c, orig, now)
  {
    assert orig[..j] == orig;
  }

  /** updateParticlesToBeKilled: each particle whose life has run out is
      turned into a zombie killed at now, appended to the zombie list and
      erased from the particle list; the walk goes on with the next. */
  method KillDying(particles: seq<Particle>, zombies: seq<Particle>, now: real)
    returns (ps: seq<Particle>, zs: seq<Particle>)
    ensures ps == Kept(Dying, particles, now)
    ensures zs == zombies + KillAll(Removed(Dying, particles, now), now)
  {
    ps, zs := particles, zombies;
    var i := 0;
    ghost var j := 0;
    while i < |ps|
      invariant CullWalked(Dying, particles, now, j, ps, i)
      invariant zs == zombies + KillAll(Removed(Dying, particles[..j], now), now)
      decreases |particles| - j
    {
      CullWalkStep(Dying, particles, now, j, ps, i);
      var particle := ps[i];
      if particle.spawnTime + particle.lifePeriod as real < now {
        KillAllSnoc(Removed(Dying, particles[..j], now), particle, now);
        zs := zs + [Kill(particle, now)];
        ps := ps[..i] + ps[i + 1..];
      } else {
        i := i + 1;
      }
      j := j + 1;
    }
    CullWalkDone(Dying, particles, now, j, ps, i);
    assert particles[..j] == particles;
  }

  /** updateZombieParticles: each zombie whose zombie period has run out
      is erased; the walk goes on with the next. */
  method DropExpired(zombies: seq<Particle>, now: real) returns (zs: seq<Particle>)
    ensures zs == Kept(Expiring, zombies, now)
  {
    zs := zombies;
    var i := 0;
    ghost var j := 0;
    while i < |zs|
      invariant CullWalked(Expiring, zombies, now, j, zs, i)
      decreases |zombies| - j
    {
      CullWalkStep(Expiring, zombies, now, j, zs, i);
      var zombie := zs[i];
      if zombie.killedTime + zombie.zombiePeriod as real < now {
        zs := zs[..i] + zs[i + 1..];
      } else {
        i := i + 1;
      }
      j := j + 1;
    }
    CullWalkDone(Expiring, zombies, now, j, zs, i);
  }

  // ---------------------------------------------------------------------
  // Bursts
  // ---------------------------------------------------------------------

  /** One burst checked against the elapsed time and distance: a burst
      whose checkpoint has passed its start emits draw particles, moves its
      start on by the interval and uses up a cycle. */
  function Fire(b: Burst, draw: int, time: real, distance: real): (int, Burst)
  {
    var checkpoint := if b.factor == Time then time else distance;
    if checkpoint > b.start then (draw, b.(start := b.start + b.interval, cycles := b.cycles - 1))
    else (0, b)
  }

  /** getSpawnParticleBursts over the schedule bs: the particles to emit,
      and the bursts that still have cycles left, in order. */
  function FireAll(bs: seq<Burst>, draws: nat -> int, time: real, distance: real): (r: (int, seq<Burst>))
    ensures |r.1| <= |bs|
  {
    if |bs| == 0 then (0, [])
    else
      var n := |bs| - 1;
      var front := FireAll(bs[..n], draws, time, distance);
      var fired := Fire(bs[n], draws(n), time, distance);
      (front.0 + fired.0, front.1 + (if fired.1.cycles <= 0 then [] else [fired.1]))
  }

  /** Every burst left in the schedule has a cycle left. */
  lemma {:induction false} FireAllKeepsLive(bs: seq<Burst>, draws: nat -> int, time: real, distance: real)
    ensures forall i :: 0 <= i < |FireAll(bs, draws, time, distance).1| ==> FireAll(bs, draws, time, distance).1[i].cycles > 0
  {
    if |bs| > 0 {
      FireAllKeepsLive(bs[..|bs| - 1], draws, time, distance);
    }
  }

  /** A schedule with nothing due and every cycle still to come emits
      nothing and stays as it is. */
  lemma {:induction false} FireAllIdle(bs: seq<Burst>, draws: nat -> int, time: real, distance: real)
    requires forall i :: 0 <= i < |bs| ==>
      (bs[i].cycles > 0 && (if bs[i].factor == Time then time else distance) <= bs[i].start)
    ensures FireAll(bs, draws, time, distance) == (0, bs)
  {
    if |bs| > 0 {
      var n := |bs| - 1;
      FireAllIdle(bs[..n], draws, time, distance);
      assert bs == bs[..n] + [bs[n]];
    }
  }

  /** When every draw is non-negative, so is the burst count. */
  lemma {:induction false} FireAllCountNonNegative(bs: seq<Burst>, draws: nat -> int, time: real, distance: real)
    requires forall j: nat :: j < |bs| ==> draws(j) >= 0
    ensures FireAll(bs, draws, time, distance).0 >= 0
  {
    if |bs| > 0 {
      FireAllCountNonNegative(bs[..|bs| - 1], draws, time, distance);
    }
  }

  /** Each due burst uses up exactly one cycle per pass, so a burst of c
      cycles fires at most c times before it leaves the schedule. */
  lemma FireUsesCycle(b: Burst, draw: int, time: real, distance: real)
    ensures Fire(b, draw, time, distance).1.cycles >= b.cycles - 1
    ensures Fire(b, draw, time, distance).0 != 0 ==> Fire(b, draw, time, distance).1.cycles == b.cycles - 1
  {
  }

  lemma FireAllStep(bs: seq<Burst>, j: int, draws: nat -> int, time: real, distance: real)
    requires 0 <= j < |bs|
    ensures var front := FireAll(bs[..j], draws, time, distance);
      var fired := Fire(bs[j], draws(j), time, distance);
      FireAll(bs[..j + 1], draws, time, distance)
        == (front.0 + fired.0, front.1 + (if fired.1.cycles <= 0 then [] else [fired.1]))
  {
    assert bs[..j + 1][..j] == bs[..j];
  }

  /** The iterator walk of getSpawnParticleBursts over the schedule: a due
      burst adds its draw and is updated where it stands, a burst without
      cycles left is erased, and the walk goes on with the next one. */
  method FireBursts(schedule: seq<Burst>, draws: nat -> int, time: real, distance: real)
    returns (count: int, bursts: seq<Burst>)
    ensures (count, bursts) == FireAll(schedule, draws, time, distance)
  {
    bursts := schedule;
    ghost var done: seq<Burst> := [];
    count := 0;
    var i := 0;
    var j := 0;
    while i < |bursts|
      invariant Walked(schedule, j, count, done, draws, time, distance)
      invariant bursts == done + schedule[j..] && i == |done|
      decreases |bursts| - i
    {
      ScheduleSplit(done, schedule[j..]);
      var burst := bursts[i];
      ghost var fired := Fire(burst, draws(j), time, distance);
      ghost var before := count;
      var checkpoint := if burst.factor == Time then time else distance;
      if checkpoint > burst.start {
        count := count + draws(j);
        burst := burst.(start := burst.start + burst.interval, cycles := burst.cycles - 1);
        assert fired == (draws(j), burst);
      } else {
        assert fired == (0, burst);
      }
      WalkStep(schedule, j, before, done, draws, time, distance, count, burst);
      if burst.cycles <= 0 {
        bursts := bursts[..i] + bursts[i + 1..];
      } else {
        ScheduleReplace(done, burst, schedule[j..]);
        bursts := bursts[i := burst];
        i := i + 1;
        done := done + [burst];
      }
      j := j + 1;
    }
    WalkDone(schedule, j, count, done, draws, time, distance);
  }

  /** The first j bursts of the schedule have been walked, giving count
      particles and leaving done in the schedule. */
  ghost predicate Walked(schedule: seq<Burst>, j: int, count: int, done: seq<Burst>,
                         draws: nat -> int, time: real, distance: real)
  {
    0 <= j <= |schedule| && (count, done) == FireAll(schedule[..j], draws, time, distance)
  }

  lemma WalkStep(schedule: seq<Burst>, j: int, count: int, done: seq<Burst>,
                 draws: nat -> int, time: real, distance: real, count': int, b: Burst)
    requires Walked(schedule, j, count, done, draws, time, distance) && j < |schedule|
    requires (count' - count, b) == Fire(schedule[j], draws(j), time, distance)
    ensures b.cycles <= 0 ==> Walked(schedule, j + 1, count', done, draws, time, distance)
    ensures b.cycles > 0 ==> Walked(schedule, j + 1, count', done + [b], draws, time, distance)
  {
    FireAllStep(schedule, j, draws, time, distance);
    assert done + [] == done;
  }

  lemma WalkDone(schedule: seq<Burst>, j: int, count: int, done: seq<Burst>,
                 draws: nat -> int, time: real, distance: real)
    requires Walked(schedule, j, count, done, draws, time, distance) && |done + schedule[j..]| <= |done|
    ensures (count, done + schedule[j..]) == FireAll(schedule, draws, time, distance)
  {
    assert j == |schedule|;
    assert schedule[..j] == schedule && done + schedule[j..] == done;
  }

  /** Taking out the first unwalked burst, or replacing it, as erase and
      assignment through the iterator do. */
  lemma ScheduleSplit(done: seq<Burst>, rest: seq<Burst>)
    requires |rest| > 0
    ensures (done + rest)[..|done|] + (done + rest)[|done| + 1..] == done + rest[1..]
    ensures (done + rest)[|done|] == rest[0]
  {
  }

  lemma ScheduleReplace(done: seq<Burst>, b: Burst, rest: seq<Burst>)
    requires |rest| > 0
    ensures (done + rest)[|done| := b] == (done + [b]) + rest[1..]
  {
  }

  // ---------------------------------------------------------------------
  // The cap on live particles
  // ---------------------------------------------------------------------

  /** The guard of updateParticleSpawn as written: the live count is taken
      as particles minus zombies, although zombies have already been
      moved out of the particle list. */
  predicate SpawnAllowedAsWritten(particles: int, zombies: int, total: int, maxParticles: int): (ok: bool)
    ensures zombies >= 0 && SpawnAllowed(particles, total, maxParticles) ==> ok
    ensures zombies == 0 ==> (ok <==> SpawnAllowed(particles, total, maxParticles))
  {
    !(total == 0 || particles - zombies + total > maxParticles)
  }

  /** The guard the cap calls for: the live particles plus the request
      stay within the maximum. */
  predicate SpawnAllowed(particles: int, total: int, maxParticles: int)
  {
    !(total == 0 || particles + total > maxParticles)
  }

  /** With 480 live particles, 20 zombies, a request of 40 and the
      default maximum of 500, the written guard lets the spawn through
      and the pool grows to 520. */
  lemma CapExceededAsWritten()
    ensures SpawnAllowedAsWritten(480, 20, 40, 500)
    ensures 480 + 40 > 500
    ensures !SpawnAllowed(480, 40, 500)
  {
  }

  /** With the corrected guard a positive request never takes the live
      particles past the maximum. */
  lemma SpawnWithinCap(particles: seq<Particle>, zombies: seq<Particle>, total: int, maxParticles: int,
                       now: real, lifetimes: nat -> int, fixed: bool)
    requires total >= 1 && SpawnAllowed(|particles|, total, maxParticles)
    ensures |particles + Spawned(zombies, total, now, lifetimes, fixed)| <= maxParticles
  {
    SpawnedCount(zombies, total, now, lifetimes, fixed);
  }

  // ---------------------------------------------------------------------
  // One update of the particle pool
  // ---------------------------------------------------------------------

  /** updateParticleSpawn on the pool: the bursts are always advanced; the
      counts from the time rate, the distance rate and the bursts are added
      up, and that many particles are spawned unless the total is zero or
      would take the live particles past the maximum (the guard as the cap
      intends it; see SpawnAllowedAsWritten). */
  function SpawnOutcome(particles: seq<Particle>, zombies: seq<Particle>, schedule: seq<Burst>, now: real,
                        perSecond: int, perMeter: int, draws: nat -> int, lifetimes: nat -> int,
                        time: real, distance: real, maxParticles: int, fixed: bool)
    : (seq<Particle>, seq<Particle>, seq<Burst>)
  {
    var fired := FireAll(schedule, draws, time, distance);
    var total := perSecond + perMeter + fired.0;
    if SpawnAllowed(|particles|, total, maxParticles) then
      (particles + Spawned(zombies, total, now, lifetimes, fixed), zombies[Recycles(total, |zombies|)..], fired.1)
    else (particles, zombies, fired.1)
  }

  /** updateParticles on the pool: dead particles become zombies, new ones
      are spawned while the emission cycle runs, and expired zombies are
      dropped. */
  function PoolOutcome(particles: seq<Particle>, zombies: seq<Particle>, schedule: seq<Burst>, running: bool, now: real,
                       perSecond: int, perMeter: int, draws: nat -> int, lifetimes: nat -> int,
                       time: real, distance: real, maxParticles: int, fixed: bool)
    : (seq<Particle>, seq<Particle>, seq<Burst>)
  {
    var live := Kept(Dying, particles, now);
    var dead := zombies + KillAll(Removed(Dying, particles, now), now);
    var spawned := if running
      then SpawnOutcome(live, dead, schedule, now, perSecond, perMeter, draws, lifetimes, time, distance, maxParticles, fixed)
      else (live, dead, schedule);
    (spawned.0, Kept(Expiring, spawned.1, now), spawned.2)
  }

  /** updateParticleSpawn's steps on the pool: getSpawnParticleBursts, the
      cap check, spawnParticle. */
  method SpawnStep(particles: seq<Particle>, zombies: seq<Particle>, schedule: seq<Burst>, now: real,
                   perSecond: int, perMeter: int, draws: nat -> int, lifetimes: nat -> int,
                   time: real, distance: real, maxParticles: int, fixed: bool)
    returns (ps: seq<Particle>, zs: seq<Particle>, bursts: seq<Burst>)
    ensures (ps, zs, bursts)
      == SpawnOutcome(particles, zombies, schedule, now, perSecond, perMeter, draws, lifetimes, time, distance, maxParticles, fixed)
  {
    var count;
    count, bursts := FireBursts(schedule, draws, time, distance);
    var total := perSecond + perMeter + count;
    ps, zs := particles, zombies;
    if !SpawnAllowed(|particles|, total, maxParticles) {
      return;
    }
    ps, zs := SpawnInto(particles, zombies, total, now, lifetimes, fixed);
  }

  /** updateParticles' steps on the pool: updateParticlesToBeKilled,
      updateParticleSpawn while running, updateZombieParticles. */
  method UpdatePool(particles: seq<Particle>, zombies: seq<Particle>, schedule: seq<Burst>, running: bool, now: real,
                    perSecond: int, perMeter: int, draws: nat -> int, lifetimes: nat -> int,
                    time: real, distance: real, maxParticles: int, fixed: bool)
    returns (ps: seq<Particle>, zs: seq<Particle>, bursts: seq<Burst>)
    ensures (ps, zs, bursts)
      == PoolOutcome(particles, zombies, schedule, running, now, perSecond, perMeter, draws, lifetimes,
                     time, distance, maxParticles, fixed)
  {
    ps, zs := KillDying(particles, zombies, now);
    bursts := schedule;
    if running {
      ps, zs, bursts := SpawnStep(ps, zs, schedule, now, perSecond, perMeter, draws, lifetimes, time, distance, maxParticles, fixed);
    }
    zs := DropExpired(zs, now);
  }

  /** With non-negative rates and draws, a spawn never takes the live
      particles past the maximum they were within. */
  lemma SpawnKeepsCap(particles: seq<Particle>, zombies: seq<Particle>, schedule: seq<Burst>, now: real,
                      perSecond: int, perMeter: int, draws: nat -> int, lifetimes: nat -> int,
                      time: real, distance: real, maxParticles: int, fixed: bool)
    requires |particles| <= maxParticles && perSecond >= 0 && perMeter >= 0
    requires forall j: nat :: j < |schedule| ==> draws(j) >= 0
    ensures |SpawnOutcome(particles, zombies, schedule, now, perSecond, perMeter, draws, lifetimes,
                          time, distance, maxParticles, fixed).0| <= maxParticles
  {
    FireAllCountNonNegative(schedule, draws, time, distance);
    var total := perSecond + perMeter + FireAll(schedule, draws, time, distance).0;
    if SpawnAllowed(|particles|, total, maxParticles) {
      SpawnWithinCap(particles, zombies, total, maxParticles, now, lifetimes, fixed);
    }
  }

  /** The same over a whole update: culling only shrinks the pool, so a
      pool within the maximum stays within it. */
  lemma PoolKeepsCap(particles: seq<Particle>, zombies: seq<Particle>, schedule: seq<Burst>, running: bool, now: real,
                     perSecond: int, perMeter: int, draws: nat -> int, lifetimes: nat -> int,
                     time: real, distance: real, maxParticles: int, fixed: bool)
    requires |particles| <= maxParticles && perSecond >= 0 && perMeter >= 0
    requires forall j: nat :: j < |schedule| ==> draws(j) >= 0
    ensures |PoolOutcome(particles, zombies, schedule, running, now, perSecond, perMeter, draws, lifetimes,
                         time, distance, maxParticles, fixed).0| <= maxParticles
  {
    KeptShrinks(Dying, particles, now);
    var live := Kept(Dying, particles, now);
    var dead := zombies + KillAll(Removed(Dying, particles, now), now);
    if running {
      SpawnKeepsCap(live, dead, schedule, now, perSecond, perMeter, draws, lifetimes, time, distance, maxParticles, fixed);
    }
  }

  // ---------------------------------------------------------------------
  // The emitter
  // ---------------------------------------------------------------------

  class Emitter {
    var duration: int
    var maxParticles: int
    var emittedPerMeter: (int, int)
    var emittedPerSecond: (int, int)
    var particleLifetime: (int, int)
    var loop: bool
    var run: bool
    var requestRun: bool
    var fixToEmitter: bool

    var startTime: real
    var passedTimeSoFar: real
    var totalPassedTime: real
    var startLocation: Vec3
    var passedDistanceSoFar: real
    var totalPassedDistance: real

    /** The bursts as configured, and the schedule still to fire. */
    var bursts: seq<Burst>
    var scheduledBursts: seq<Burst>

    var particles: seq<Particle>
    var zombies: seq<Particle>

    /** The constructor with initEmitter: the default settings, no
      particle and not running. */
    constructor()
      ensures duration == 2000 && maxParticles == 500
      ensures emittedPerMeter == (2, 2) && emittedPerSecond == (10, 10) && particleLifetime == (2000, 2000)
      ensures loop && !run && !requestRun
      ensures particles == [] && zombies == [] && bursts == [] && scheduledBursts == []
    {
      duration := 2000;
      maxParticles := 500;
      emittedPerMeter := (2, 2);
      emittedPerSecond := (10, 10);
      particleLifetime := (2000, 2000);
      loop := true;
      run := false;
      requestRun := false;
      fixToEmitter := false;
      startTime := 0.0;
      passedTimeSoFar := 0.0;
      totalPassedTime := 0.0;
      startLocation := Vec3(0.0, 0.0, 0.0);
      passedDistanceSoFar := 0.0;
      totalPassedDistance := 0.0;
      bursts := [];
      scheduledBursts := [];
      particles := [];
      zombies := [];
    }

    /** finishedEmissionCycle: the cycle has run past its duration and
      does not loop. */
    predicate FinishedEmissionCycle()
      reads this`totalPassedTime, this`duration, this`loop
    {
      totalPassedTime > duration as real && !loop
    }

    /** resetEmissionCycle: the particles are cleared only when asked; the
      time and distance totals restart from now and the current location,
      and the whole burst schedule is restored. */
    method ResetEmissionCycle(resetParticles: bool, now: real, location: Vec3)
      modifies this`particles, this`zombies, this`startTime, this`totalPassedTime, this`passedTimeSoFar
      modifies this`totalPassedDistance, this`passedDistanceSoFar, this`startLocation, this`scheduledBursts
      ensures resetParticles ==> particles == [] && zombies == []
      ensures !resetParticles ==> particles == old(particles) && zombies == old(zombies)
      ensures startTime == now && totalPassedTime == 0.0 && passedTimeSoFar == 0.0
      ensures totalPassedDistance == 0.0 && passedDistanceSoFar == 0.0 && startLocation == location
      ensures scheduledBursts == bursts
    {
      if resetParticles {
        particles := [];
        zombies := [];
      }
      startTime := now;
      totalPassedTime := 0.0;
      passedTimeSoFar := 0.0;
      totalPassedDistance := 0.0;
      passedDistanceSoFar := 0.0;
      startLocation := location;
      scheduledBursts := bursts;
    }

    /** updateEmitter: a change of the run request resumes (restarting the
      time and location references) or pauses (banking the time and
      distance run so far); the totals are then brought up to date and a
      looping cycle that has run its duration starts over.
      distanceFromStart is the distance from location to the recorded
      start location; resetClock is the clock reading a restart takes. */
    method UpdateEmitter(now: real, resetClock: real, location: Vec3, distanceFromStart: real)
      modifies this`run, this`startTime, this`totalPassedTime, this`passedTimeSoFar, this`startLocation
      modifies this`totalPassedDistance, this`passedDistanceSoFar, this`scheduledBursts, this`particles, this`zombies
      ensures run == old(requestRun)
      ensures var resumed := old(run) != old(requestRun) && old(requestRun);
        var paused := old(run) != old(requestRun) && !old(requestRun);
        var start := if resumed then now else old(startTime);
        var timeSoFar := if paused then old(passedTimeSoFar) + (now - old(startTime)) else old(passedTimeSoFar);
        var total := now - start + timeSoFar;
        if total > duration as real && loop then
          startTime == resetClock && totalPassedTime == 0.0 && passedTimeSoFar == 0.0
          && totalPassedDistance == 0.0 && passedDistanceSoFar == 0.0
          && startLocation == location && scheduledBursts == bursts
        else
          startTime == start && passedTimeSoFar == timeSoFar && totalPassedTime == total
          && passedDistanceSoFar == (if paused then old(passedDistanceSoFar) + distanceFromStart else old(passedDistanceSoFar))
          && totalPassedDistance == (if resumed then 0.0 else distanceFromStart) + passedDistanceSoFar
          && scheduledBursts == old(scheduledBursts)
      ensures loop ==> !FinishedEmissionCycle()
      ensures particles == old(particles) && zombies == old(zombies)
    {
      var resumed := false;
      if run != requestRun {
        run := requestRun;
        if run {
          startTime := now;
          startLocation := location;
          resumed := true;
        } else {
          passedTimeSoFar := passedTimeSoFar + (now - startTime);
          passedDistanceSoFar := passedDistanceSoFar + distanceFromStart;
        }
      }
      totalPassedTime := now - startTime + passedTimeSoFar;
      totalPassedDistance := (if resumed then 0.0 else distanceFromStart) + passedDistanceSoFar;
      if totalPassedTime > duration as real && loop {
        ResetEmissionCycle(false, resetClock, location);
      }
    }

    /** spawnParticle: n particles are added, recycled zombies first. */
    method SpawnParticle(n: int, now: real, lifetimes: nat -> int)
      modifies this`particles, this`zombies
      ensures particles == old(particles) + Spawned(old(zombies), n, now, lifetimes, fixToEmitter)
      ensures zombies == old(zombies)[Recycles(n, |old(zombies)|)..]
    {
      particles, zombies := SpawnInto(particles, zombies, n, now, lifetimes, fixToEmitter);
    }

    /** updateParticlesToBeKilled: dead particles move to the zombie list. */
    method UpdateParticlesToBeKilled(now: real)
      modifies this`particles, this`zombies
      ensures particles == Kept(Dying, old(particles), now)
      ensures zombies == old(zombies) + KillAll(Removed(Dying, old(particles), now), now)
    {
      particles, zombies := KillDying(particles, zombies, now);
    }

    /** updateZombieParticles: expired zombies are dropped. */
    method UpdateZombieParticles(now: real)
      modifies this`zombies
      ensures zombies == Kept(Expiring, old(zombies), now)
    {
      zombies := DropExpired(zombies, now);
    }

    /** updateParticleSpawn, with perSecond and perMeter standing for what
      getSpawnParticlesPerSecond and getSpawnParticlesPerMeter return. */
    method UpdateParticleSpawn(now: real, perSecond: int, perMeter: int, draws: nat -> int, lifetimes: nat -> int)
      modifies this`particles, this`zombies, this`scheduledBursts
      ensures (particles, zombies, scheduledBursts)
        == SpawnOutcome(old(particles), old(zombies), old(scheduledBursts), now, perSecond, perMeter, draws, lifetimes,
                        totalPassedTime, totalPassedDistance, maxParticles, fixToEmitter)
    {
      var ps, zs, bursts := SpawnStep(particles, zombies, scheduledBursts, now, perSecond, perMeter,
        draws, lifetimes, totalPassedTime, totalPassedDistance, maxParticles, fixToEmitter);
      particles, zombies, scheduledBursts := ps, zs, bursts;
    }

    /** updateParticles without physics, appearance and billboarding. */
    method UpdateParticles(now: real, perSecond: int, perMeter: int, draws: nat -> int, lifetimes: nat -> int)
      modifies this`particles, this`zombies, this`scheduledBursts
      ensures (particles, zombies, scheduledBursts)
        == PoolOutcome(old(particles), old(zombies), old(scheduledBursts), !FinishedEmissionCycle(), now, perSecond, perMeter,
                       draws, lifetimes, totalPassedTime, totalPassedDistance, maxParticles, fixToEmitter)
    {
      var ps, zs, bursts := UpdatePool(particles, zombies, scheduledBursts, !FinishedEmissionCycle(), now,
        perSecond, perMeter, draws, lifetimes, totalPassedTime, totalPassedDistance, maxParticles, fixToEmitter);
      particles, zombies, scheduledBursts := ps, zs, bursts;
    }

    /** getSpawnParticleBursts: each scheduled burst whose checkpoint has
      passed fires and uses up a cycle, and bursts without cycles left
      leave the schedule. */
    method GetSpawnParticleBursts(draws: nat -> int) returns (count: int)
      modifies this`scheduledBursts
      ensures (count, scheduledBursts) == FireAll(old(scheduledBursts), draws, totalPassedTime, totalPassedDistance)
    {
      if |scheduledBursts| == 0 {
        return 0;
      }
      count, scheduledBursts := FireBursts(scheduledBursts, draws, totalPassedTime, totalPassedDistance);
    }
  }
}
