// The stars and starfield effects of src/core/effects/ambient-effects.ts:
// twinkling fixed stars, and stars flying towards the viewer in 3D.
module Stars {
  import opened Types
  import opened JsMath
  import opened Surface

  // ---------------------------------------------------------------------
  // stars

  datatype Star = Star(x: int, y: int, brightness: real, speed: real, phase: real)

  /** The number of stars: 15% of the cells, rounded down. */
  function StarCount(width: nat, height: nat): (n: nat)
    ensures n <= width * height
  {
    Floor((width * height) as real * 0.15)
  }

  /** Star `i` of init: a cell, a brightness, a twinkle speed in
      [0.02, 0.07) and a phase in [0, 2π), from five draws. */
  function NewStar(width: nat, height: nat, host: Host, i: nat): Star
    requires host.Valid()
  {
    var k := 5 * i;
    Star(Floor(host.Draw(k) * width as real), Floor(host.Draw(k + 1) * height as real), host.Draw(k + 2),
         0.02 + host.Draw(k + 3) * 0.05, host.Draw(k + 4) * PI * 2.0)
  }

  /** Every star init places lies on the panel. */
  lemma NewStarOnPanel(width: nat, height: nat, host: Host, i: nat)
    requires host.Valid() && width >= 1 && height >= 1
    ensures var s := NewStar(width, height, host, i);
      0 <= s.x < width && 0 <= s.y < height && 0.02 <= s.speed < 0.07
  {
    FloorDraw(host.Draw(5 * i), width);
    FloorDraw(host.Draw(5 * i + 1), height);
  }

  /** A star's cell lies on the panel. */
  predicate OnPanel(s: Star, width: nat, height: nat)
  {
    0 <= s.x < width && 0 <= s.y < height
  }

  /** The stars part of init. */
  method InitStars(width: nat, height: nat, host: Host) returns (stars: seq<Star>)
    requires host.Valid()
    ensures |stars| == StarCount(width, height)
    ensures forall i :: 0 <= i < |stars| ==> stars[i] == NewStar(width, height, host, i)
    ensures forall i :: 0 <= i < |stars| ==> OnPanel(stars[i], width, height)
  {
    stars := [];
    var i := 0;
    while i < StarCount(width, height)
      invariant 0 <= i <= StarCount(width, height) && |stars| == i
      invariant forall j :: 0 <= j < i ==> stars[j] == NewStar(width, height, host, j)
      invariant forall j :: 0 <= j < i ==> OnPanel(stars[j], width, height)
    {
      NewStarOnPanel(width, height, host, i);
      stars := stars + [NewStar(width, height, host, i)];
      i := i + 1;
    }
  }

  /** The stars step: each star's phase advances by its speed; nothing else changes. */
  method StepStars(stars: seq<Star>) returns (next: seq<Star>)
    ensures |next| == |stars|
    ensures forall i :: 0 <= i < |stars| ==> next[i] == stars[i].(phase := stars[i].phase + stars[i].speed)
  {
    next := stars;
    var i := 0;
    while i < |next|
      invariant 0 <= i <= |next| == |stars|
      invariant forall j :: 0 <= j < |stars| ==>
        next[j] == if j < i then stars[j].(phase := stars[j].phase + stars[j].speed) else stars[j]
    {
      next := next[i := next[i].(phase := next[i].phase + next[i].speed)];
      i := i + 1;
    }
  }

  const StarsBackground := Rgb(5.0, 5.0, 15.0)

  /** A star's dot: white with a touch of blue removed, its brightness
      following the sine of its phase between 0 and 255. */
  function StarDot(s: Star, sin: real -> real): Dot
  {
    var b := (sin(s.phase) * 0.5 + 0.5) * 255.0;
    Dot(s.x, s.y, Rgb(b, b, b * 0.9))
  }

  function StarDots(stars: seq<Star>, sin: real -> real): (d: seq<Dot>)
    ensures |d| == |stars|
  {
    seq(|stars|, i requires 0 <= i < |stars| => StarDot(stars[i], sin))
  }

  /** With the sine bounded by 1 a star's dot is a byte colour. */
  lemma StarDotInRange(s: Star, host: Host)
    requires host.Valid()
    ensures StarDot(s, host.sin).color.InByteRange()
  {
    assert -1.0 <= host.sin(s.phase) <= 1.0;
  }

  // ---------------------------------------------------------------------
  // starfield

  datatype Star3 = Star3(x: real, y: real, z: real, pz: real)

  /** The distance a star comes closer per step. */
  const Approach: real := 0.8

  /** Star `i` of init: a spread of four panel sizes around the centre, a
      depth in [0, 2 * width), from three draws. */
  function NewStar3(width: nat, height: nat, host: Host, i: nat): Star3
    requires host.Valid()
  {
    var k := 3 * i;
    Star3((host.Draw(k) - 0.5) * width as real * 4.0, (host.Draw(k + 1) - 0.5) * height as real * 4.0,
          host.Draw(k + 2) * width as real * 2.0, 0.0)
  }

  /** A star of init stands in [0, 2 * width). */
  lemma NewStar3InDepth(width: nat, height: nat, host: Host, i: nat)
    requires host.Valid()
    ensures InDepth(NewStar3(width, height, host, i), width)
  {
    var d := host.Draw(3 * i + 2);
    ScaleReal(width as real * 2.0, d);
    assert d * width as real * 2.0 == (width as real * 2.0) * d;
  }

  /** The starfield part of init: forty stars. */
  method InitStarfield(width: nat, height: nat, host: Host) returns (stars: seq<Star3>)
    requires host.Valid()
    ensures |stars| == 40 && forall i :: 0 <= i < 40 ==> stars[i] == NewStar3(width, height, host, i)
    ensures forall i :: 0 <= i < 40 ==> InDepth(stars[i], width)
  {
    stars := [];
    var i := 0;
    while i < 40
      invariant 0 <= i <= 40 && |stars| == i
      invariant forall j :: 0 <= j < i ==> stars[j] == NewStar3(width, height, host, j)
      invariant forall j :: 0 <= j < i ==> InDepth(stars[j], width)
    {
      NewStar3InDepth(width, height, host, i);
      stars := stars + [NewStar3(width, height, host, i)];
      i := i + 1;
    }
  }

  /** One star's step with two draws from `k`: it comes closer by 0.8, and
      one that reaches the viewer is sent back to depth 2 * width at a new
      position. */
  function Approached(s: Star3, width: nat, height: nat, host: Host, k: nat): Star3
    requires host.Valid()
  {
    var z := s.z - Approach;
    if z <= 0.0 then
      Star3((host.Draw(k) - 0.5) * width as real * 4.0, (host.Draw(k + 1) - 0.5) * height as real * 4.0,
            width as real * 2.0, width as real * 2.0)
    else Star3(s.x, s.y, z, s.z)
  }

  /** A star never stands beyond depth 2 * width after a step, and on a
      panel at least one column wide never at depth 0 either; `pz` records
      the depth it came from, or equals the new depth after a reset. */
  lemma ApproachedInDepth(s: Star3, width: nat, height: nat, host: Host, k: nat)
    requires host.Valid() && 0.0 <= s.z <= width as real * 2.0
    ensures var n := Approached(s, width, height, host, k);
      0.0 <= n.z <= width as real * 2.0 && (width >= 1 ==> 0.0 < n.z) &&
      ((n.pz == s.z && n.z == s.z - Approach) || n.z == n.pz == width as real * 2.0)
  {
  }

  /** A star's depth lies in [0, 2 * width]. */
  predicate InDepth(s: Star3, width: nat)
  {
    0.0 <= s.z <= width as real * 2.0
  }

  /** Every star of a starfield step keeps its depth in [0, 2 * width], and
      one still far from the viewer just comes 0.8 closer. */
  lemma StepKeepsDepth(stars: seq<Star3>, next: seq<Star3>, width: nat, height: nat, host: Host)
    requires host.Valid() && |next| == |stars|
    requires forall i :: 0 <= i < |stars| ==> next[i] == Approached(stars[i], width, height, host, 2 * Resets(stars[..i]))
    ensures forall i :: 0 <= i < |stars| && InDepth(stars[i], width) ==>
      InDepth(next[i], width) && (width >= 1 ==> 0.0 < next[i].z)
    ensures forall i :: 0 <= i < |stars| && stars[i].z > Approach ==>
      next[i] == Star3(stars[i].x, stars[i].y, stars[i].z - Approach, stars[i].z)
  {
    forall i | 0 <= i < |stars| && InDepth(stars[i], width)
      ensures InDepth(next[i], width) && (width >= 1 ==> 0.0 < next[i].z)
    {
      ApproachedInDepth(stars[i], width, height, host, 2 * Resets(stars[..i]));
    }
  }

  /** How many of `stars` reach the viewer on a step; each of them takes
      two draws for its new position. */
  function Resets(stars: seq<Star3>): nat
  {
    if stars == [] then 0
    else Resets(stars[..|stars| - 1]) + (if stars[|stars| - 1].z - Approach <= 0.0 then 1 else 0)
  }

  /** _stepStarfield: each star in turn, a reset taking two draws. */
  method StepStarfield(stars: seq<Star3>, width: nat, height: nat, host: Host) returns (next: seq<Star3>)
    requires host.Valid()
    ensures |next| == |stars|
    ensures forall i :: 0 <= i < |stars| ==> next[i] == Approached(stars[i], width, height, host, 2 * Resets(stars[..i]))
    ensures forall i :: 0 <= i < |stars| && InDepth(stars[i], width) ==>
      InDepth(next[i], width) && (width >= 1 ==> 0.0 < next[i].z)
    ensures forall i :: 0 <= i < |stars| && stars[i].z > Approach ==>
      next[i] == Star3(stars[i].x, stars[i].y, stars[i].z - Approach, stars[i].z)
  {
    next := [];
    var k: nat := 0;
    var i := 0;
    while i < |stars|
      invariant 0 <= i <= |stars| && |next| == i && k == 2 * Resets(stars[..i])
      invariant forall j :: 0 <= j < i ==> next[j] == Approached(stars[j], width, height, host, 2 * Resets(stars[..j]))
    {
      next := next + [Approached(stars[i], width, height, host, k)];
      if stars[i].z - Approach <= 0.0 {
        k := k + 2;
      }
      assert stars[..i + 1][..i] == stars[..i];
      i := i + 1;
    }
    StepKeepsDepth(stars, next, width, height, host);
  }

  const StarfieldBackground := Rgb(2.0, 2.0, 8.0)

  /** The dots of one star: its projection (when it is on the panel), bright
      when near, with a second, half-bright dot to its right when it is
      closer than half a panel width. A star at depth 0 projects to no number
      in JavaScript and is not drawn. */
  function Star3Dots(s: Star3, width: nat, height: nat): seq<Dot>
  {
    if s.z == 0.0 || width == 0 then []
    else
      var sx := Floor((s.x / s.z) * width as real * 0.3 + width as real / 2.0);
      var sy := Floor((s.y / s.z) * height as real * 0.3 + height as real / 2.0);
      if !(0 <= sx < width && 0 <= sy < height) then []
      else
        var b := MinR(255.0, Floor((1.0 - s.z / (width as real * 2.0)) * 255.0) as real);
        var main := Dot(sx, sy, Rgb(b, b, b * 0.9));
        if s.z < width as real * 0.5 && sx + 1 < width then [main, Dot(sx + 1, sy, Rgb(b * 0.5, b * 0.5, b * 0.45))]
        else [main]
  }

  function StarfieldDots(stars: seq<Star3>, width: nat, height: nat): seq<Dot>
  {
    if stars == [] then [] else StarfieldDots(stars[..|stars| - 1], width, height) + Star3Dots(stars[|stars| - 1], width, height)
  }

  /** A star between the viewer and depth 2 * width is drawn in byte colours,
      and only on the panel. */
  lemma Star3DotsInRange(s: Star3, width: nat, height: nat)
    requires 0.0 < s.z <= width as real * 2.0
    ensures forall d :: d in Star3Dots(s, width, height) ==>
      d.color.InByteRange() && 0 <= d.x < width && 0 <= d.y < height
  {
    var w2 := width as real * 2.0;
    assert 0.0 < s.z / w2 <= 1.0;
  }
}
