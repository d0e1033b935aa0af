/** The fireworks demo (src/demos/yanhua/src/index.js): a firework's particle
    buffers, the per-frame particle update, and the list of live fireworks
    that spawns new ones and sweeps out burnt-out ones. The launch directions
    (spherical angles through sine and cosine) are inputs; points, materials
    and rendering are not modelled. */
module Yanhua {
  import Text

  /** `this.count`: particles per firework. */
  const Count: nat := 10000

  /** One particle as the update sees it: position, velocity, life, size. */
  datatype Particle = Particle(x: real, y: real, z: real, vx: real, vy: real, vz: real,
                               life: real, size: real)

  /** One frame of a live particle: move by a tenth of the velocity (the
      velocity before gravity), pull the vertical velocity down by 0.05,
      burn 0.015 of life, and shrink the size with the life. */
  function Step(p: Particle): Particle
  {
    var life := p.life - 0.015;
    Particle(p.x + p.vx * 0.1, p.y + p.vy * 0.1, p.z + p.vz * 0.1,
             p.vx, p.vy - 0.05, p.vz, life, life * 0.3)
  }

  /** What `update` does to one particle: a dead one (life <= 0) is left alone. */
  function Frame(p: Particle): (r: Particle)
    ensures r.life <= p.life
    ensures p.life <= 0.0 ==> r == p
  {
    if p.life > 0.0 then Step(p) else p
  }

  /** `n` frames in a row. */
  function Frames(p: Particle, n: nat): Particle
    decreases n
  {
    if n == 0 then p else Frames(Frame(p), n - 1)
  }

  lemma {:induction false} LifeCountsDown(p: Particle, n: nat)
    requires p.life == 1.0 && n <= 67
    ensures Frames(p, n).life == 1.0 - 0.015 * n as real
  {
    if n > 0 {
      LifeAfterLive(p, n - 1);
      AfterFrames(p, n - 1);
    }
  }

  lemma {:induction false} LifeAfterLive(p: Particle, k: nat)
    requires p.life == 1.0 && k <= 66
    ensures Frames(p, k).life == 1.0 - 0.015 * k as real
    decreases k
  {
    if k > 0 {
      LifeAfterLive(p, k - 1);
      AfterFrames(p, k - 1);
    }
  }

  /** `Frames(p, k + 1)` is one more frame after `Frames(p, k)`. */
  lemma {:induction false} AfterFrames(p: Particle, k: nat)
    ensures Frames(p, k + 1) == Frame(Frames(p, k))
    decreases k
  {
    if k > 0 {
      AfterFrames(Frame(p), k - 1);
    }
  }

  /** A particle born with life 1.0 is alive for exactly its first 67 updates. */
  lemma BurnsOutAfter67(p: Particle)
    requires p.life == 1.0
    ensures forall k :: 0 <= k < 67 ==> Frames(p, k).life > 0.0
    ensures Frames(p, 67).life <= 0.0
    ensures Frames(Frames(p, 67), 1) == Frames(p, 67)
  {
    forall k | 0 <= k < 67 ensures Frames(p, k).life > 0.0 {
      LifeAfterLive(p, k);
    }
    LifeCountsDown(p, 67);
  }

  /** A particle read out of the buffers the way `update` indexes them. */
  function ParticleIn(pos: seq<real>, vel: seq<real>, life: seq<real>, size: seq<real>, i: int): Particle
    requires 0 <= i && 3 * i + 2 < |pos| && 3 * i + 2 < |vel| && i < |life| && i < |size|
  {
    Particle(pos[3 * i], pos[3 * i + 1], pos[3 * i + 2],
             vel[3 * i], vel[3 * i + 1], vel[3 * i + 2], life[i], size[i])
  }

  /** The particle loop of the `Firework` constructor. */
  method InitParticles(p: array<real>, v: array<real>, c: array<real>, s: array<real>, l: array<real>,
                       x: real, y: real, z: real, vel: seq<real>, greenRolls: seq<real>, blueRolls: seq<real>)
    requires p.Length == 3 * Count && v.Length == 3 * Count && c.Length == 3 * Count
    requires s.Length == Count && l.Length == Count
    requires |vel| == 3 * Count && |greenRolls| == Count && |blueRolls| == Count
    requires p != v && p != c && v != c && s != l
    modifies p, v, c, s, l
    ensures v[..] == vel
    ensures forall i :: 0 <= i < Count ==>
      p[3 * i] == x && p[3 * i + 1] == y && p[3 * i + 2] == z &&
      l[i] == 1.0 && s[i] == 0.3 &&
      c[3 * i] == 1.0 && c[3 * i + 1] == greenRolls[i] * 0.2 && c[3 * i + 2] == blueRolls[i] * 0.2
  {
    var i := 0;
    while i < Count
      invariant 0 <= i <= Count
      invariant forall m :: 0 <= m < 3 * i ==> v[m] == vel[m]
      invariant forall m :: 0 <= m < i ==> p[3 * m] == x && p[3 * m + 1] == y && p[3 * m + 2] == z
      invariant forall m :: 0 <= m < i ==> l[m] == 1.0 && s[m] == 0.3
      invariant forall m :: 0 <= m < i ==> c[3 * m] == 1.0
      invariant forall m :: 0 <= m < i ==> c[3 * m + 1] == greenRolls[m] * 0.2 && c[3 * m + 2] == blueRolls[m] * 0.2
    {
      SetTriple(v, i, vel[i * 3], vel[i * 3 + 1], vel[i * 3 + 2]);
      SetTriple(p, i, x, y, z);
      SetTriple(c, i, 1.0, greenRolls[i] * 0.2, blueRolls[i] * 0.2);
      s[i] := 0.3;
      l[i] := 1.0;
      i := i + 1;
    }
    assert v[..] == vel;
  }

  /** Writes the three components of entry `i` of a packed xyz buffer. */
  method SetTriple(a: array<real>, i: int, x: real, y: real, z: real)
    requires 0 <= 3 * i && 3 * i + 2 < a.Length
    modifies a
    ensures a[3 * i] == x && a[3 * i + 1] == y && a[3 * i + 2] == z
    ensures forall m :: 0 <= m < a.Length && m != 3 * i && m != 3 * i + 1 && m != 3 * i + 2 ==> a[m] == old(a[m])
  {
    a[i * 3], a[i * 3 + 1], a[i * 3 + 2] := x, y, z;
  }

  class Firework {
    const positions: array<real>
    const velocities: array<real>
    const colors: array<real>
    const sizes: array<real>
    const life: array<real>
    /** Whether the points are still part of the scene (`dispose` removes them). */
    var inScene: bool

    ghost predicate Valid()
      reads this
    {
      positions.Length == 3 * Count && velocities.Length == 3 * Count &&
      colors.Length == 3 * Count && sizes.Length == Count && life.Length == Count &&
      positions != velocities && life != sizes &&
      positions != life && positions != sizes && velocities != life && velocities != sizes
    }

    /** The particle `i`, now. */
    function ParticleAt(i: int): Particle
      requires Valid() && 0 <= i < Count
      reads this, positions, velocities, life, sizes
    {
      ParticleIn(positions[..], velocities[..], life[..], sizes[..], i)
    }

    /** `new Firework(x, y, z)`: every particle starts at (x, y, z) with life
        1.0, size 0.3, full red and green and blue `0.2 * roll`. `vel` holds
        the launch velocities the source computes from random angles. */
    constructor (x: real, y: real, z: real, vel: seq<real>, greenRolls: seq<real>, blueRolls: seq<real>)
      requires |vel| == 3 * Count && |greenRolls| == Count && |blueRolls| == Count
      requires forall i :: 0 <= i < Count ==> 0.0 <= greenRolls[i] < 1.0 && 0.0 <= blueRolls[i] < 1.0
      ensures Valid() && inScene
      ensures fresh(positions) && fresh(velocities) && fresh(colors) && fresh(sizes) && fresh(life)
      ensures velocities[..] == vel
      ensures forall i :: 0 <= i < Count ==>
        positions[3 * i] == x && positions[3 * i + 1] == y && positions[3 * i + 2] == z &&
        life[i] == 1.0 && sizes[i] == 0.3 &&
        colors[3 * i] == 1.0 && colors[3 * i + 1] == greenRolls[i] * 0.2 &&
        colors[3 * i + 2] == blueRolls[i] * 0.2
      ensures forall i :: 0 <= i < Count ==> 0.0 <= colors[3 * i + 1] < 0.2 && 0.0 <= colors[3 * i + 2] < 0.2
    {
      var p := new real[3 * Count];
      var v := new real[3 * Count];
      var c := new real[3 * Count];
      var s := new real[Count];
      var l := new real[Count];
      InitParticles(p, v, c, s, l, x, y, z, vel, greenRolls, blueRolls);
      positions, velocities, colors, sizes, life := p, v, c, s, l;
      inScene := true;
    }

    /** `update()`: every live particle takes one step, dead ones stay as
        they are; the result says whether any particle was alive. */
    method Update() returns (alive: bool)
      requires Valid()
      modifies positions, velocities, life, sizes
      ensures alive <==> exists i :: 0 <= i < Count && old(life[i]) > 0.0
      ensures forall i :: 0 <= i < Count ==> ParticleAt(i) == Frame(old(ParticleAt(i)))
    {
      alive := false;
      var i := 0;
      while i < Count
        invariant 0 <= i <= Count
        invariant alive <==> exists m :: 0 <= m < i && old(life[m]) > 0.0
        invariant forall m :: 0 <= m < i ==> ParticleAt(m) == Frame(old(ParticleAt(m)))
        invariant forall m :: i <= m < Count ==> ParticleAt(m) == old(ParticleAt(m))
      {
        if life[i] > 0.0 {
          alive := true;
          StepParticle(i);
        }
        i := i + 1;
      }
    }

    /** The body of the `if (this.life[i] > 0)` branch for particle `i`. */
    method StepParticle(i: int)
      requires Valid() && 0 <= i < Count
      modifies positions, velocities, life, sizes
      ensures ParticleAt(i) == Step(old(ParticleAt(i)))
      ensures forall m :: 0 <= m < Count && m != i ==> ParticleAt(m) == old(ParticleAt(m))
    {
      positions[i * 3] := positions[i * 3] + velocities[i * 3] * 0.1;
      positions[i * 3 + 1] := positions[i * 3 + 1] + velocities[i * 3 + 1] * 0.1;
      positions[i * 3 + 2] := positions[i * 3 + 2] + velocities[i * 3 + 2] * 0.1;
      velocities[i * 3 + 1] := velocities[i * 3 + 1] - 0.05;
      life[i] := life[i] - 0.015;
      sizes[i] := life[i] * 0.3;
    }

    /** `dispose()`: the points leave the scene. */
    method Dispose()
      modifies this`inScene
      ensures !inScene
    {
      inScene := false;
    }
  }

  /** `createRandomFirework`'s spawn point `((r1 * 2 - 1) * 30, (r2 * 2 - 1) * 25)`. */
  function SpawnPoint(r1: real, r2: real): (real, real)
  {
    ((r1 * 2.0 - 1.0) * 30.0, (r2 * 2.0 - 1.0) * 25.0)
  }

  /** With rolls in [0, 1) the spawn point lies in [-30, 30) x [-25, 25). */
  lemma SpawnPointRange(r1: real, r2: real)
    requires 0.0 <= r1 < 1.0 && 0.0 <= r2 < 1.0
    ensures -30.0 <= SpawnPoint(r1, r2).0 < 30.0 && -25.0 <= SpawnPoint(r1, r2).1 < 25.0
  {
  }

  /** `fireworks` without the entries whose update reported them dead, in order. */
  function Survivors<T>(items: seq<T>, alive: seq<bool>): (r: seq<T>)
    requires |alive| == |items|
    ensures |r| <= |items|
    ensures forall x :: x in r ==> x in items
  {
    if |items| == 0 then []
    else (if alive[0] then [items[0]] else []) + Survivors(items[1..], alive[1..])
  }

  /** The dead entries, from the last to the first (the order the sweep meets them). */
  function DeadBackwards<T>(items: seq<T>, alive: seq<bool>): (r: seq<T>)
    requires |alive| == |items|
    ensures |r| + |Survivors(items, alive)| == |items|
    ensures forall x :: x in r ==> x in items
  {
    if |items| == 0 then []
    else DeadBackwards(items[1..], alive[1..]) + (if alive[0] then [] else [items[0]])
  }

  lemma SurvivorsSplit<T>(items: seq<T>, alive: seq<bool>, i: int)
    requires |alive| == |items| && 0 <= i < |items|
    ensures Survivors(items[i..], alive[i..]) ==
      (if alive[i] then [items[i]] else []) + Survivors(items[i + 1..], alive[i + 1..])
    ensures DeadBackwards(items[i..], alive[i..]) ==
      DeadBackwards(items[i + 1..], alive[i + 1..]) + (if alive[i] then [] else [items[i]])
  {
    assert items[i..][1..] == items[i + 1..];
    assert alive[i..][1..] == alive[i + 1..];
  }

  /** One step of the backward sweep: entry `i` is still in place, and
      keeping or splicing it out leaves the prefix before `i` followed by the
      survivors from `i` on. */
  lemma SweepStep<T>(items: seq<T>, alive: seq<bool>, i: int, kept: seq<T>)
    requires |alive| == |items| && 0 <= i < |items|
    requires kept == items[..i + 1] + Survivors(items[i + 1..], alive[i + 1..])
    ensures i < |kept| && kept[i] == items[i]
    ensures alive[i] ==> kept == items[..i] + Survivors(items[i..], alive[i..])
    ensures !alive[i] ==> kept[..i] + kept[i + 1..] == items[..i] + Survivors(items[i..], alive[i..])
  {
    SurvivorsSplit(items, alive, i);
    assert items[..i + 1] == items[..i] + [items[i]];
    Splice(items[..i], items[i], Survivors(items[i + 1..], alive[i + 1..]));
  }

  /** Keeping or removing the element at the seam of a concatenation. */
  lemma Splice<T>(p: seq<T>, x: T, rest: seq<T>)
    ensures var k := (p + [x]) + rest;
      |p| < |k| && k[|p|] == x && k == p + ([x] + rest) && k[..|p|] + k[|p| + 1..] == p + rest
  {
    var k := (p + [x]) + rest;
    assert k[..|p|] == p;
    assert k[|p| + 1..] == rest;
    Text.ConcatAssoc(p, [x], rest);
  }

  /** The sweep of `animate` on values: walking from the back, each dead entry
      is disposed of and spliced out. The result keeps exactly the survivors
      in their order; `disposed` lists each dead entry once. */
  method Sweep<T>(items: seq<T>, alive: seq<bool>) returns (kept: seq<T>, disposed: seq<T>)
    requires |alive| == |items|
    ensures kept == Survivors(items, alive)
    ensures disposed == DeadBackwards(items, alive)
  {
    kept := items;
    disposed := [];
    var i := |items| - 1;
    while i >= 0
      invariant -1 <= i < |items|
      invariant kept == items[..i + 1] + Survivors(items[i + 1..], alive[i + 1..])
      invariant disposed == DeadBackwards(items[i + 1..], alive[i + 1..])
    {
      SurvivorsSplit(items, alive, i);
      SweepStep(items, alive, i, kept);
      if !alive[i] {
        disposed := disposed + [kept[i]];
        kept := kept[..i] + kept[i + 1..];
      }
      i := i - 1;
    }
    assert items[0..] == items;
    assert alive[0..] == alive;
  }

  /** The module-level `fireworks` list. */
  class Show {
    var fireworks: seq<Firework>

    constructor ()
      ensures fireworks == []
    {
      fireworks := [];
    }

    /** `createRandomFirework`: one new firework, all its particles at the
        spawn point of the two position rolls and z = 0. */
    method CreateRandomFirework(r1: real, r2: real, vel: seq<real>, greenRolls: seq<real>, blueRolls: seq<real>)
      requires |vel| == 3 * Count && |greenRolls| == Count && |blueRolls| == Count
      requires forall i :: 0 <= i < Count ==> 0.0 <= greenRolls[i] < 1.0 && 0.0 <= blueRolls[i] < 1.0
      modifies this`fireworks
      ensures |fireworks| == |old(fireworks)| + 1 && fireworks[..|old(fireworks)|] == old(fireworks)
      ensures var f := fireworks[|fireworks| - 1];
        fresh(f) && f.Valid() && f.inScene &&
        forall i :: 0 <= i < Count ==>
          (f.positions[3 * i], f.positions[3 * i + 1], f.positions[3 * i + 2]) ==
          (SpawnPoint(r1, r2).0, SpawnPoint(r1, r2).1, 0.0)
    {
      var (x, y) := SpawnPoint(r1, r2);
      var f := new Firework(x, y, 0.0, vel, greenRolls, blueRolls);
      fireworks := fireworks + [f];
    }

    /** The backward loop of `animate`, given what each firework's `update`
        returned: the dead ones leave the scene and the list, the others stay
        in order. */
    method RemoveBurntOut(alive: seq<bool>)
      requires |alive| == |fireworks|
      requires forall i, j :: 0 <= i < j < |fireworks| ==> fireworks[i] != fireworks[j]
      modifies this`fireworks, set f | f in fireworks
      ensures fireworks == Survivors(old(fireworks), alive)
      ensures forall i :: 0 <= i < |alive| && !alive[i] ==> !old(fireworks)[i].inScene
      ensures forall i :: 0 <= i < |alive| && alive[i] ==> old(fireworks)[i].inScene == old(fireworks[i].inScene)
    {
      ghost var all := fireworks;
      ghost var scene0 := seq(|all|, m requires 0 <= m < |all| reads all => all[m].inScene);
      var i := |fireworks| - 1;
      while i >= 0
        invariant SweptFrom(all, alive, i, scene0)
      {
        SweepOne(all, alive, i, scene0);
        i := i - 1;
      }
      SweptAll(all, alive, scene0);
    }

    /** The entries after `i` are swept: `fireworks` is the prefix up to `i`
        followed by the survivors after it; the dead ones after `i` have left
        the scene, and every other entry is as it was (`scene0`). */
    ghost predicate SweptFrom(all: seq<Firework>, alive: seq<bool>, i: int, scene0: seq<bool>)
      reads this, set f | f in all
    {
      |alive| == |all| == |scene0| && -1 <= i < |all| &&
      fireworks == all[..i + 1] + Survivors(all[i + 1..], alive[i + 1..]) &&
      (forall m :: i < m < |all| && !alive[m] ==> !all[m].inScene) &&
      (forall m :: 0 <= m < |all| && (m <= i || alive[m]) ==> all[m].inScene == scene0[m])
    }

    lemma SweptAll(all: seq<Firework>, alive: seq<bool>, scene0: seq<bool>)
      requires SweptFrom(all, alive, -1, scene0)
      ensures fireworks == Survivors(all, alive)
      ensures forall i :: 0 <= i < |alive| && !alive[i] ==> !all[i].inScene
      ensures forall i :: 0 <= i < |alive| && alive[i] ==> all[i].inScene == scene0[i]
    {
      assert all[0..] == all;
      assert alive[0..] == alive;
    }

    /** One turn of the backward loop, at index `i`. */
    method SweepOne(ghost all: seq<Firework>, alive: seq<bool>, i: int, ghost scene0: seq<bool>)
      requires forall m, n :: 0 <= m < n < |all| ==> all[m] != all[n]
      requires 0 <= i && SweptFrom(all, alive, i, scene0)
      modifies this`fireworks, set f | f in all
      ensures SweptFrom(all, alive, i - 1, scene0)
    {
      SweepStep(all, alive, i, fireworks);
      if !alive[i] {
        label before:
        fireworks[i].Dispose();
        forall m | 0 <= m < |all| && m != i
          ensures all[m].inScene == old@before(all[m].inScene)
        {
          assert all[m] != all[i];
        }
        fireworks := fireworks[..i] + fireworks[i + 1..];
      }
    }
  }
}
