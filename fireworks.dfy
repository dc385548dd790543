// The fireworks effect of src/core/effects/ambient-effects.ts: rockets
// launched from the bottom row at most three at a time, each bursting into
// 16 to 23 sparks once gravity has slowed it, sparks fading out over 50 steps.
module Fireworks {
  import opened Types
  import opened JsMath
  import opened Utils
  import opened Surface

  datatype Rocket = Rocket(x: real, y: real, vy: real, color: Rgb, exploded: bool)

  datatype Particle = Particle(x: real, y: real, vx: real, vy: real, color: Rgb, life: real)

  /** Rockets in flight at once. */
  const MaxRockets: nat := 3

  /** Steps the spawn timer must exceed before a launch. */
  const SpawnDelay: int := 40

  // ---------------------------------------------------------------------
  // rockets

  /** A launch happens on this step: the incremented timer exceeds the delay
      and fewer than three rockets are in flight. */
  predicate Spawns(spawnTimer: int, rockets: seq<Rocket>)
  {
    spawnTimer + 1 > SpawnDelay && |rockets| < MaxRockets
  }

  /** The launched rocket: hue, column and speed from three draws; it starts
      on the bottom row rising at 1 to 1.5 cells a step. */
  function Launched(width: nat, height: nat, host: Host): (r: Rocket)
    requires host.Valid()
    ensures -1.5 < r.vy <= -1.0 && !r.exploded
  {
    Rocket(host.Draw(1) * width as real, (height - 1) as real, -(1.0 + host.Draw(2) * 0.5),
           HsvToRgb(host.Draw(0), 1.0, 1.0), false)
  }

  /** One step of flight: the rocket moves by its speed, then gravity adds 0.02. */
  function Flown(r: Rocket): Rocket
  {
    r.(y := r.y + r.vy, vy := r.vy + 0.02)
  }

  /** A rocket bursts on the step its speed, after gravity, reaches -0.2. */
  predicate Bursts(r: Rocket)
  {
    Flown(r).vy >= -0.2 && !r.exploded
  }

  /** How many of `rockets` burst on this step. */
  function BurstCount(rockets: seq<Rocket>): nat
  {
    if rockets == [] then 0 else (if Bursts(rockets[0]) then 1 else 0) + BurstCount(rockets[1..])
  }

  /** The rockets still in flight after a step, flown, in their order. Each
      rocket either bursts or stays, and none that stays is ready to burst. */
  function Kept(rockets: seq<Rocket>): (r: seq<Rocket>)
    ensures |r| + BurstCount(rockets) == |rockets|
    ensures forall j :: 0 <= j < |r| ==> r[j].vy < -0.2 || r[j].exploded
  {
    if rockets == [] then []
    else (if Bursts(rockets[0]) then [] else [Flown(rockets[0])]) + Kept(rockets[1..])
  }

  lemma KeptStep(rockets: seq<Rocket>, i: nat)
    requires 0 < i <= |rockets|
    ensures Kept(rockets[i - 1..]) ==
      (if Bursts(rockets[i - 1]) then [] else [Flown(rockets[i - 1])]) + Kept(rockets[i..])
    ensures BurstCount(rockets[i - 1..]) == (if Bursts(rockets[i - 1]) then 1 else 0) + BurstCount(rockets[i..])
  {
    assert rockets[i - 1..][1..] == rockets[i..];
  }

  // ---------------------------------------------------------------------
  // sparks

  /** A spark fresh from rocket `r`'s burst: at the rocket's position after
      its last flight, in its colour, at full life. */
  predicate SparkOf(p: Particle, r: Rocket)
  {
    p.x == r.x && p.y == Flown(r).y && p.color == r.color && p.life == 1.0
  }

  /** A burst's spark count: `16 + floor(random * 8)`. */
  function SparkCount(d: real): (n: nat)
    requires 0.0 <= d < 1.0
    ensures 16 <= n <= 23
  {
    FloorDraw(d, 8);
    16 + Floor(d * 8.0)
  }

  /** The burst loop: one draw for the count, then one speed draw per spark;
      spark `j` of `n` flies at angle 2πj/n. */
  method Burst(r: Rocket, host: Host, k: nat) returns (sparks: seq<Particle>, next: nat)
    requires host.Valid()
    ensures 16 <= |sparks| <= 23 && |sparks| == SparkCount(host.Draw(k))
    ensures forall j :: 0 <= j < |sparks| ==> SparkOf(sparks[j], r)
    ensures next == k + 1 + |sparks|
  {
    var n := SparkCount(host.Draw(k));
    var from := Flown(r);
    sparks := [];
    var j := 0;
    while j < n
      invariant 0 <= j <= n && |sparks| == j
      invariant forall i :: 0 <= i < j ==> SparkOf(sparks[i], r)
    {
      var angle := (j as real / n as real) * PI * 2.0;
      var speed := 0.5 + host.Draw(k + 1 + j) * 0.8;
      sparks := sparks + [Particle(from.x, from.y, host.cos(angle) * speed, host.sin(angle) * speed, r.color, 1.0)];
      j := j + 1;
    }
    next := k + 1 + n;
  }

  /** Splicing out the entry after a prefix leaves the prefix and the rest. */
  lemma SpliceOut<T>(pre: seq<T>, x: T, rest: seq<T>)
    ensures var s := pre + [x] + rest; s[..|pre|] + s[|pre| + 1..] == pre + rest
  {
    var s := pre + [x] + rest;
    assert s[..|pre|] == pre && s[|pre| + 1..] == rest;
  }

  /** Replacing the entry after a prefix. */
  lemma ReplaceAt<T>(pre: seq<T>, x: T, y: T, rest: seq<T>)
    ensures (pre + [x] + rest)[|pre| := y] == pre + [y] + rest
  {
  }

  /** One pass of the rocket loop, for rocket i (the rockets after it are
      done): it flies, or it bursts, is spliced out and its sparks pushed. */
  method FlyRocketAt(rockets: seq<Rocket>, i: nat, kept: seq<Rocket>, sparks: seq<Particle>, host: Host, d: nat)
    returns (kept': seq<Rocket>, sparks': seq<Particle>, d': nat)
    requires host.Valid() && i < |rockets|
    requires kept == rockets[..i + 1] + Kept(rockets[i + 1..])
    requires 16 * BurstCount(rockets[i + 1..]) <= |sparks| <= 23 * BurstCount(rockets[i + 1..])
    requires forall j :: 0 <= j < |sparks| ==> sparks[j].life == 1.0
    ensures kept' == rockets[..i] + Kept(rockets[i..])
    ensures 16 * BurstCount(rockets[i..]) <= |sparks'| <= 23 * BurstCount(rockets[i..])
    ensures forall j :: 0 <= j < |sparks'| ==> sparks'[j].life == 1.0
  {
    KeptStep(rockets, i + 1);
    ghost var rest := Kept(rockets[i + 1..]);
    assert rockets[..i + 1] == rockets[..i] + [rockets[i]];
    assert kept[i] == rockets[i];
    if Bursts(kept[i]) {
      var burst;
      burst, d' := Burst(kept[i], host, d);
      sparks' := sparks + burst;
      SpliceOut(rockets[..i], rockets[i], rest);
      kept' := kept[..i] + kept[i + 1..];
    } else {
      ReplaceAt(rockets[..i], rockets[i], Flown(rockets[i]), rest);
      kept' := kept[i := Flown(kept[i])];
      sparks', d' := sparks, d;
    }
  }

  /** The rocket loop of _stepFireworks, from the last rocket to the first:
      each flies, and one that bursts is spliced out and its sparks pushed. */
  method FlyRockets(rockets: seq<Rocket>, host: Host, k: nat) returns (kept: seq<Rocket>, sparks: seq<Particle>)
    requires host.Valid()
    ensures kept == Kept(rockets)
    ensures 16 * BurstCount(rockets) <= |sparks| <= 23 * BurstCount(rockets)
    ensures forall j :: 0 <= j < |sparks| ==> sparks[j].life == 1.0
  {
    kept := rockets;
    sparks := [];
    var d := k;
    var i := |rockets|;
    assert rockets[..i] == rockets;
    while i > 0
      invariant 0 <= i <= |rockets|
      invariant kept == rockets[..i] + Kept(rockets[i..])
      invariant 16 * BurstCount(rockets[i..]) <= |sparks| <= 23 * BurstCount(rockets[i..])
      invariant forall j :: 0 <= j < |sparks| ==> sparks[j].life == 1.0
    {
      i := i - 1;
      kept, sparks, d := FlyRocketAt(rockets, i, kept, sparks, host, d);
    }
    assert rockets[0..] == rockets;
  }

  /** One step of a spark: it moves by its velocity, gravity adds 0.03 to its
      downward speed and it loses 0.02 of its life. */
  function Aged(p: Particle): Particle
  {
    p.(x := p.x + p.vx, y := p.y + p.vy, vy := p.vy + 0.03, life := p.life - 0.02)
  }

  /** The sparks still alive after a step, aged, in their order. */
  function Surviving(ps: seq<Particle>): (r: seq<Particle>)
    ensures |r| <= |ps|
    ensures forall j :: 0 <= j < |r| ==> r[j].life > 0.0
  {
    if ps == [] then []
    else (if Aged(ps[0]).life <= 0.0 then [] else [Aged(ps[0])]) + Surviving(ps[1..])
  }

  lemma SurvivingStep(ps: seq<Particle>, i: nat)
    requires 0 < i <= |ps|
    ensures Surviving(ps[i - 1..]) ==
      (if Aged(ps[i - 1]).life <= 0.0 then [] else [Aged(ps[i - 1])]) + Surviving(ps[i..])
  {
    assert ps[i - 1..][1..] == ps[i..];
  }

  /** Sparks with more than 0.02 of life left all survive a step. */
  lemma {:induction false} NoneDieEarly(ps: seq<Particle>)
    requires forall j :: 0 <= j < |ps| ==> ps[j].life > 0.02
    ensures |Surviving(ps)| == |ps|
  {
    if ps != [] {
      NoneDieEarly(ps[1..]);
    }
  }

  /** Sparks age one by one, so a step over two runs of sparks is the steps
      over each run. */
  lemma {:induction false} SurvivingAppend(ps: seq<Particle>, qs: seq<Particle>)
    ensures Surviving(ps + qs) == Surviving(ps) + Surviving(qs)
  {
    if ps == [] {
      assert ps + qs == qs;
    } else {
      assert (ps + qs)[1..] == ps[1..] + qs;
      SurvivingAppend(ps[1..], qs);
    }
  }

  /** Fresh sparks all survive their first step, at 0.98 of their life. */
  lemma {:induction false} FreshSurvive(ps: seq<Particle>)
    requires forall j :: 0 <= j < |ps| ==> ps[j].life == 1.0
    ensures |Surviving(ps)| == |ps|
    ensures forall j :: 0 <= j < |ps| ==> Surviving(ps)[j] == Aged(ps[j]) && Surviving(ps)[j].life == 0.98
  {
    if ps != [] {
      FreshSurvive(ps[1..]);
      assert Aged(ps[0]).life == 0.98;
      var r := Surviving(ps);
      assert r == [Aged(ps[0])] + Surviving(ps[1..]);
      forall j | 0 <= j < |ps|
        ensures r[j] == Aged(ps[j]) && r[j].life == 0.98
      {
        if j > 0 {
          assert r[j] == Surviving(ps[1..])[j - 1];
        }
      }
    }
  }

  /** A spark aged n times has lost 0.02 of life per step. */
  function AgedTimes(p: Particle, n: nat): Particle
  {
    if n == 0 then p else Aged(AgedTimes(p, n - 1))
  }

  /** A fresh spark is alive for 49 steps and gone on the 50th. */
  lemma {:induction false} SparkLifetime(p: Particle, n: nat)
    requires p.life == 1.0
    ensures AgedTimes(p, n).life == 1.0 - 0.02 * n as real
    ensures AgedTimes(p, n).life > 0.0 <==> n < 50
  {
    if n > 0 {
      SparkLifetime(p, n - 1);
    }
  }

  /** The spark loop of _stepFireworks, from the last spark to the first:
      each ages, and one whose life has run out is spliced out. */
  method AgeSparks(ps: seq<Particle>) returns (alive: seq<Particle>)
    ensures alive == Surviving(ps)
  {
    alive := ps;
    var i := |ps|;
    while i > 0
      invariant 0 <= i <= |ps|
      invariant alive == ps[..i] + Surviving(ps[i..])
    {
      i := i - 1;
      SurvivingStep(ps, i + 1);
      ghost var rest := Surviving(ps[i + 1..]);
      assert ps[..i + 1] == ps[..i] + [ps[i]];
      assert alive == ps[..i] + [ps[i]] + rest;
      var p := Aged(alive[i]);
      if p.life <= 0.0 {
        SpliceOut(ps[..i], ps[i], rest);
        alive := alive[..i] + alive[i + 1..];
      } else {
        ReplaceAt(ps[..i], ps[i], p, rest);
        alive := alive[i := p];
      }
    }
  }

  /** _stepFireworks: the timer ticks and maybe launches a rocket (draws 0 to
      2), the rockets fly and burst (later draws), and the sparks age. */
  method Step(rockets: seq<Rocket>, particles: seq<Particle>, spawnTimer: int, width: nat, height: nat, host: Host)
    returns (nextRockets: seq<Rocket>, nextParticles: seq<Particle>, nextTimer: int)
    requires host.Valid()
    ensures nextTimer == if Spawns(spawnTimer, rockets) then 0 else spawnTimer + 1
    ensures nextRockets == Kept(if Spawns(spawnTimer, rockets) then rockets + [Launched(width, height, host)] else rockets)
    ensures |rockets| <= MaxRockets ==> |nextRockets| <= MaxRockets
    ensures forall j :: 0 <= j < |nextRockets| ==> nextRockets[j].vy < -0.2 || nextRockets[j].exploded
    ensures forall j :: 0 <= j < |nextParticles| ==> nextParticles[j].life > 0.0
    ensures var flying := if Spawns(spawnTimer, rockets) then rockets + [Launched(width, height, host)] else rockets;
      var aged := Surviving(particles);
      |aged| <= |nextParticles| && nextParticles[..|aged|] == aged &&
      16 * BurstCount(flying) <= |nextParticles| - |aged| <= 23 * BurstCount(flying) &&
      forall j :: |aged| <= j < |nextParticles| ==> nextParticles[j].life == 0.98
    ensures |nextParticles| <= |particles| + 23 * (|rockets| + 1)
  {
    var flying := rockets;
    nextTimer := spawnTimer + 1;
    var k := 0;
    if Spawns(spawnTimer, rockets) {
      nextTimer := 0;
      flying := rockets + [Launched(width, height, host)];
      k := 3;
    }
    var sparks;
    nextRockets, sparks := FlyRockets(flying, host, k);
    nextParticles := AgeSparks(particles + sparks);
    SurvivingAppend(particles, sparks);
    FreshSurvive(sparks);
  }

  /** _renderFireworks: rockets as pale-yellow dots, then sparks in their
      colour dimmed by their remaining life, over a dark blue background. */
  const Background := Rgb(5.0, 5.0, 10.0)
  const RocketColor := Rgb(255.0, 255.0, 200.0)

  function RocketDot(r: Rocket): Dot
  {
    Dot(Floor(r.x), Floor(r.y), RocketColor)
  }

  function SparkDot(p: Particle): Dot
  {
    Dot(Floor(p.x), Floor(p.y), p.color.Scale(p.life))
  }

  /** The overlay: every rocket, then every spark. */
  function Dots(rockets: seq<Rocket>, particles: seq<Particle>): (d: seq<Dot>)
    ensures |d| == |rockets| + |particles|
  {
    seq(|rockets|, i requires 0 <= i < |rockets| => RocketDot(rockets[i]))
      + seq(|particles|, i requires 0 <= i < |particles| => SparkDot(particles[i]))
  }

  /** A live spark of a byte colour is drawn in a byte colour. */
  lemma SparkDotInRange(p: Particle)
    requires p.color.InByteRange() && 0.0 <= p.life <= 1.0
    ensures SparkDot(p).color.InByteRange()
  {
    ScaleDims(p.color, p.life);
  }
}
