// The rain_storm effect of src/core/effects/ambient-effects.ts: thirty
// falling drops drawn as fading streaks, and an occasional lightning flash
// that brightens the background for a few steps.
module RainStorm {
  import opened Types
  import opened JsMath
  import opened Surface

  datatype Drop = Drop(x: real, y: real, speed: real, brightness: real, length: int)

  /** The steps a lightning flash lasts. */
  const FlashSteps: int := 8

  /** The chance of a flash on a step. */
  const FlashChance: real := 0.005

  /** A drop as init and the respawn make them: speed in [0.3, 0.8),
      brightness in [0.3, 1) and a streak of 2 to 4 cells. */
  predicate DropOk(d: Drop)
  {
    0.3 <= d.speed < 0.8 && 0.3 <= d.brightness < 1.0 && 2 <= d.length <= 4
  }

  /** Drop `i` of init: five draws, for column, row, speed, brightness and length. */
  function NewDrop(width: nat, height: nat, host: Host, i: nat): (d: Drop)
    requires host.Valid()
    ensures DropOk(d)
  {
    var k := 5 * i;
    FloorDraw(host.Draw(k + 4), 3);
    Drop(host.Draw(k) * width as real, host.Draw(k + 1) * height as real,
         0.3 + host.Draw(k + 2) * 0.5, 0.3 + host.Draw(k + 3) * 0.7, 2 + Floor(host.Draw(k + 4) * 3.0))
  }

  /** The rain_storm part of init: thirty drops, no flash, time 0. */
  method Init(width: nat, height: nat, host: Host) returns (drops: seq<Drop>, lightning: int, time: int)
    requires host.Valid()
    ensures |drops| == 30 && forall i :: 0 <= i < 30 ==> drops[i] == NewDrop(width, height, host, i)
    ensures forall i :: 0 <= i < |drops| ==> DropOk(drops[i])
    ensures lightning == 0 && time == 0
  {
    drops := [];
    var i := 0;
    while i < 30
      invariant 0 <= i <= 30 && |drops| == i
      invariant forall j :: 0 <= j < i ==> drops[j] == NewDrop(width, height, host, j)
    {
      drops := drops + [NewDrop(width, height, host, i)];
      i := i + 1;
    }
    lightning, time := 0, 0;
  }

  /** A drop falls by its speed; once the top of its streak is below the
      panel it respawns above the panel, at a new column with a new speed
      and brightness taken from three draws starting at `k`. */
  function Fallen(d: Drop, width: nat, height: nat, host: Host, k: nat): Drop
    requires host.Valid()
  {
    var y := d.y + d.speed;
    if y > (height + d.length) as real then
      Drop(host.Draw(k) * width as real, -(d.length as real), 0.3 + host.Draw(k + 1) * 0.5,
           0.3 + host.Draw(k + 2) * 0.7, d.length)
    else d.(y := y)
  }

  /** Draws a falling drop takes: three when it respawns, none otherwise. */
  function DrawsTaken(d: Drop, height: nat): nat
  {
    if d.y + d.speed > (height + d.length) as real then 3 else 0
  }

  /** A fallen drop is still well formed and never lower than its streak's
      length below the panel; a respawned drop starts its streak above row 0. */
  lemma FallenOk(d: Drop, width: nat, height: nat, host: Host, k: nat)
    requires host.Valid() && DropOk(d)
    ensures var f := Fallen(d, width, height, host, k);
      DropOk(f) && f.length == d.length && f.y <= (height + d.length) as real
    ensures DrawsTaken(d, height) == 3 ==> Fallen(d, width, height, host, k).y == -(d.length as real)
    ensures DrawsTaken(d, height) == 0 ==> Fallen(d, width, height, host, k).y == d.y + d.speed
  {
  }

  /** The lightning countdown: a flash draw restarts it at 8, then it counts
      down by one while positive. */
  function Flash(lightning: int, flashes: bool): (l: int)
    ensures 0 <= lightning <= FlashSteps ==> 0 <= l < FlashSteps
    ensures flashes ==> l == FlashSteps - 1
  {
    var l := if flashes then FlashSteps else lightning;
    if l > 0 then l - 1 else l
  }

  /** The draws the respawns among `drops` take, in order. */
  function DrawsAll(drops: seq<Drop>, height: nat): nat
  {
    if drops == [] then 0 else DrawsAll(drops[..|drops| - 1], height) + DrawsTaken(drops[|drops| - 1], height)
  }

  /** `next` holds the first drops of a rain step over `drops`. */
  ghost predicate FallenPrefix(drops: seq<Drop>, next: seq<Drop>, width: nat, height: nat, host: Host)
    requires host.Valid()
  {
    |next| <= |drops| &&
    forall j :: 0 <= j < |next| ==> next[j] == Fallen(drops[j], width, height, host, DrawsAll(drops[..j], height))
  }

  /** One pass of the drop loop extends the prefix by the next drop, which
      respawns from the draws after the earlier respawns. */
  lemma FallenPrefixNext(drops: seq<Drop>, next: seq<Drop>, width: nat, height: nat, host: Host)
    requires host.Valid() && FallenPrefix(drops, next, width, height, host) && |next| < |drops|
    ensures var i := |next|;
      FallenPrefix(drops, next + [Fallen(drops[i], width, height, host, DrawsAll(drops[..i], height))],
                   width, height, host)
  {
    var i := |next|;
    var n := next + [Fallen(drops[i], width, height, host, DrawsAll(drops[..i], height))];
    forall j | 0 <= j < |n|
      ensures n[j] == Fallen(drops[j], width, height, host, DrawsAll(drops[..j], height))
    {
      if j < i {
        assert n[j] == next[j];
      }
    }
  }

  /** One more drop adds its own draws to the running count. */
  lemma DrawsAllNext(drops: seq<Drop>, i: nat, height: nat)
    requires i < |drops|
    ensures DrawsAll(drops[..i + 1], height) == DrawsAll(drops[..i], height) + DrawsTaken(drops[i], height)
  {
    var pre := drops[..i + 1];
    assert pre[..|pre| - 1] == drops[..i];
  }

  /** Every drop of a rain step keeps its length and stays well formed, no
      further below the panel than its streak is long. */
  lemma StepKeepsDrops(drops: seq<Drop>, next: seq<Drop>, width: nat, height: nat, host: Host)
    requires host.Valid() && (forall i :: 0 <= i < |drops| ==> DropOk(drops[i]))
    requires |next| == |drops| && FallenPrefix(drops, next, width, height, host)
    ensures forall i :: 0 <= i < |drops| ==>
      DropOk(next[i]) && next[i].length == drops[i].length && next[i].y <= (height + drops[i].length) as real
  {
    forall i | 0 <= i < |drops|
      ensures DropOk(next[i]) && next[i].length == drops[i].length && next[i].y <= (height + drops[i].length) as real
    {
      FallenOk(drops[i], width, height, host, DrawsAll(drops[..i], height));
    }
  }

  /** _stepRainStorm: time advances, each drop falls in turn, a respawn
      taking the next three draws, then one more draw decides a flash. */
  method Step(drops: seq<Drop>, lightning: int, time: int, width: nat, height: nat, host: Host)
    returns (nextDrops: seq<Drop>, nextLightning: int, nextTime: int)
    requires host.Valid()
    requires forall i :: 0 <= i < |drops| ==> DropOk(drops[i])
    ensures nextTime == time + 1
    ensures |nextDrops| == |drops|
    ensures forall i :: 0 <= i < |drops| ==>
      nextDrops[i] == Fallen(drops[i], width, height, host, DrawsAll(drops[..i], height))
    ensures nextLightning == Flash(lightning, host.Draw(DrawsAll(drops, height)) < FlashChance)
    ensures forall i :: 0 <= i < |drops| ==>
      DropOk(nextDrops[i]) && nextDrops[i].length == drops[i].length &&
      nextDrops[i].y <= (height + drops[i].length) as real
    ensures 0 <= lightning <= FlashSteps ==> 0 <= nextLightning < FlashSteps
  {
    nextTime := time + 1;
    nextDrops := [];
    var k: nat := 0;
    var i := 0;
    while i < |drops|
      invariant 0 <= i <= |drops| && |nextDrops| == i && k == DrawsAll(drops[..i], height)
      invariant FallenPrefix(drops, nextDrops, width, height, host)
    {
      FallenPrefixNext(drops, nextDrops, width, height, host);
      DrawsAllNext(drops, i, height);
      nextDrops := nextDrops + [Fallen(drops[i], width, height, host, k)];
      k := k + DrawsTaken(drops[i], height);
      i := i + 1;
    }
    assert drops[..|drops|] == drops;
    StepKeepsDrops(drops, nextDrops, width, height, host);
    nextLightning := Flash(lightning, host.Draw(k) < FlashChance);
  }


  /** The background: a dim blue-grey, up to 80 bright during a flash. */
  function Background(lightning: int): Rgb
  {
    var bright := if lightning > 0 then MinR(80.0, lightning as real * 10.0) else 3.0;
    Rgb(bright, bright, bright + 5.0)
  }

  /** The brightness of the streak cell `i` behind a drop's head: it fades
      linearly over the streak's length. */
  function Fade(d: Drop, i: nat): real
    requires d.length > 0
  {
    d.brightness * (1.0 - i as real / d.length as real)
  }

  /** Streak cell `i` of a drop, counted up from its head: the head is the
      brightest and each cell further up is dimmer. */
  function StreakDot(d: Drop, i: nat): Dot
    requires d.length > 0
  {
    var b := Fade(d, i);
    Dot(Floor(d.x), Floor(d.y) - i, Rgb(b * 100.0, b * 150.0, b * 255.0))
  }

  /** The streak of a drop, head first; a drop without length draws nothing. */
  function Streak(d: Drop): (s: seq<Dot>)
    ensures |s| == Max(0, d.length)
  {
    if d.length <= 0 then [] else seq(d.length, i requires 0 <= i < d.length => StreakDot(d, i))
  }

  /** The overlay of _renderRainStorm: every drop's streak in turn. */
  function Streaks(drops: seq<Drop>): seq<Dot>
  {
    if drops == [] then [] else Streaks(drops[..|drops| - 1]) + Streak(drops[|drops| - 1])
  }

  /** A streak cell of a well-formed drop is a byte colour no brighter than
      its head. */
  lemma StreakInRange(d: Drop, i: nat)
    requires DropOk(d) && i < d.length
    ensures StreakDot(d, i).color.InByteRange()
    ensures StreakDot(d, i).color.b <= StreakDot(d, 0).color.b
  {
    FadeBounds(d, i);
  }

  /** The brightness `i` cells behind a drop's head fades in [0, brightness],
      at full brightness at the head. */
  lemma FadeBounds(d: Drop, i: nat)
    requires DropOk(d) && i < d.length
    ensures 0.0 <= Fade(d, i) <= d.brightness && Fade(d, 0) == d.brightness
  {
    var q := i as real / d.length as real;
    FractionBelowOne(i, d.length);
    ScaleReal(d.brightness, 1.0 - q);
    assert 0 as real / d.length as real == 0.0;
  }

  /** i / n lies in [0, 1) for 0 <= i < n. */
  lemma FractionBelowOne(i: nat, n: int)
    requires i < n
    ensures 0.0 <= i as real / n as real < 1.0
  {
    var q := i as real / n as real;
    assert q * n as real == i as real;
    assert (q - 1.0) * n as real < 0.0;
  }

  /** The background is a byte colour while the countdown is in range, and
      brighter during a flash. */
  lemma BackgroundInRange(lightning: int)
    requires 0 <= lightning <= FlashSteps
    ensures Background(lightning).InByteRange()
    ensures lightning > 0 ==> Background(lightning).r > Background(0).r
  {
  }
}
