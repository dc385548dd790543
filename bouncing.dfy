// The bouncing effect of src/core/effects/ambient-effects.ts: six coloured
// balls that move in straight lines, bounce off the panel edges and leave
// fading trails in a per-cell trail buffer.
module Bouncing {
  import opened Types
  import opened JsMath
  import opened Surface
  import Grid

  datatype Ball = Ball(x: real, y: real, vx: real, vy: real, color: Rgb)

  /** The six ball colours, one per ball. */
  const BallColors: seq<Rgb> := [
    Rgb(255.0, 60.0, 60.0), Rgb(60.0, 255.0, 60.0), Rgb(60.0, 60.0, 255.0),
    Rgb(255.0, 255.0, 60.0), Rgb(255.0, 60.0, 255.0), Rgb(60.0, 255.0, 255.0)]

  /** How much of its brightness a trail keeps per step. */
  const TrailKeep: real := 0.85

  /** Ball `i` of init: position and velocity from four draws, velocity
      components in [-0.75, 0.75). */
  function NewBall(width: nat, height: nat, host: Host, i: nat): (b: Ball)
    requires host.Valid() && i < |BallColors|
    ensures 0.0 <= b.x < width as real || width == 0
    ensures 0.0 <= b.y < height as real || height == 0
    ensures -0.75 <= b.vx < 0.75 && -0.75 <= b.vy < 0.75
  {
    var d0, d1 := host.Draw(4 * i), host.Draw(4 * i + 1);
    assert 0.0 <= d0 * width as real <= width as real;
    assert width > 0 ==> d0 * width as real < width as real;
    assert 0.0 <= d1 * height as real <= height as real;
    assert height > 0 ==> d1 * height as real < height as real;
    Ball(d0 * width as real, d1 * height as real,
         (host.Draw(4 * i + 2) - 0.5) * 1.5, (host.Draw(4 * i + 3) - 0.5) * 1.5, BallColors[i])
  }

  /** The bouncing part of init: six balls, four draws each, and a black
      trail buffer of `width * height` cells. */
  method Init(width: nat, height: nat, host: Host) returns (balls: seq<Ball>, trail: seq<Rgb>)
    requires host.Valid()
    ensures |balls| == 6 && forall i :: 0 <= i < 6 ==> balls[i] == NewBall(width, height, host, i)
    ensures trail == seq(width * height, _ => Black)
  {
    balls := [];
    var i := 0;
    while i < 6
      invariant 0 <= i <= 6 && |balls| == i
      invariant forall j :: 0 <= j < i ==> balls[j] == NewBall(width, height, host, j)
    {
      balls := balls + [NewBall(width, height, host, i)];
      i := i + 1;
    }
    trail := [];
    while |trail| < width * height
      invariant |trail| <= width * height && trail == seq(|trail|, _ => Black)
    {
      trail := trail + [Black];
    }
  }

  /** One axis of a ball's move: the position advances by the velocity; on
      reaching either edge of [0, size - 1] the velocity is negated and the
      position clamped back into that range. */
  function Bounce(pos: real, vel: real, size: nat): (real, real)
  {
    var p := pos + vel;
    if p <= 0.0 || p >= (size - 1) as real then (MaxR(0.0, MinR((size - 1) as real, p)), -vel) else (p, vel)
  }

  /** After a bounce the position lies on the panel, the speed is the same,
      and the direction flips exactly when the ball reached an edge. */
  lemma BounceInRange(pos: real, vel: real, size: nat)
    requires size >= 1
    ensures var (p, v) := Bounce(pos, vel, size);
      0.0 <= p <= (size - 1) as real && AbsR(v) == AbsR(vel)
    ensures var p := pos + vel;
      Bounce(pos, vel, size).1 == (if p <= 0.0 || p >= (size - 1) as real then -vel else vel)
  {
  }

  /** A ball after one step of _stepBouncing. */
  function Moved(b: Ball, width: nat, height: nat): Ball
  {
    var (x, vx) := Bounce(b.x, b.vx, width);
    var (y, vy) := Bounce(b.y, b.vy, height);
    Ball(x, y, vx, vy, b.color)
  }

  /** A moved ball is on the panel, at the same speeds, in the same colour. */
  lemma MovedOnPanel(b: Ball, width: nat, height: nat)
    requires width >= 1 && height >= 1
    ensures var m := Moved(b, width, height);
      0.0 <= m.x <= (width - 1) as real && 0.0 <= m.y <= (height - 1) as real &&
      AbsR(m.vx) == AbsR(b.vx) && AbsR(m.vy) == AbsR(b.vy) && m.color == b.color
    ensures var m := Moved(b, width, height);
      0 <= Floor(m.x) < width && 0 <= Floor(m.y) < height
  {
    BounceInRange(b.x, b.vx, width);
    BounceInRange(b.y, b.vy, height);
  }

  /** The trail cell a ball paints: the cell under its position. */
  function BallDot(b: Ball): Dot
  {
    Dot(Floor(b.x), Floor(b.y), b.color)
  }

  function BallDots(balls: seq<Ball>): (d: seq<Dot>)
    ensures |d| == |balls|
  {
    seq(|balls|, i requires 0 <= i < |balls| => BallDot(balls[i]))
  }

  /** The faded trail: every cell at 0.85 of its colour. */
  function FadedTrail(trail: seq<Rgb>): (r: seq<Rgb>)
    ensures |r| == |trail|
  {
    seq(|trail|, i requires 0 <= i < |trail| => trail[i].Scale(TrailKeep))
  }

  /** _stepBouncing: the trail fades, then each ball in turn moves and paints
      its cell of the trail. */
  method Step(balls: seq<Ball>, trail: seq<Rgb>, width: nat, height: nat)
    returns (nextBalls: seq<Ball>, nextTrail: seq<Rgb>)
    ensures |nextBalls| == |balls| && forall i :: 0 <= i < |balls| ==> nextBalls[i] == Moved(balls[i], width, height)
    ensures nextTrail == StampAll(FadedTrail(trail), width, height, BallDots(nextBalls))
  {
    nextTrail := trail;
    var i := 0;
    while i < |trail|
      invariant 0 <= i <= |trail| && |nextTrail| == |trail|
      invariant forall j :: 0 <= j < |trail| ==> nextTrail[j] == if j < i then trail[j].Scale(TrailKeep) else trail[j]
    {
      nextTrail := nextTrail[i := nextTrail[i].Scale(TrailKeep)];
      i := i + 1;
    }
    assert nextTrail == FadedTrail(trail);
    nextBalls := [];
    i := 0;
    while i < |balls|
      invariant 0 <= i <= |balls| && |nextBalls| == i
      invariant forall j :: 0 <= j < i ==> nextBalls[j] == Moved(balls[j], width, height)
      invariant nextTrail == StampAll(FadedTrail(trail), width, height, BallDots(nextBalls))
    {
      var b := Moved(balls[i], width, height);
      var px, py := Floor(b.x), Floor(b.y);
      if 0 <= px < width && 0 <= py < height {
        var idx := py * width + px;
        Grid.CellIndex(width, height, px, py);
        if idx < |nextTrail| {
          nextTrail := nextTrail[idx := b.color];
        }
      }
      assert BallDots(nextBalls + [b])[..i] == BallDots(nextBalls);
      nextBalls := nextBalls + [b];
      i := i + 1;
    }
  }

  /** A trail cell no ball lands on after the step shows 0.85 of its colour
      before the step. */
  lemma UntouchedCellFades(balls: seq<Ball>, trail: seq<Rgb>, width: nat, height: nat, x: int, y: int)
    requires |trail| == width * height && 0 <= x < width && 0 <= y < height
    requires forall k :: 0 <= k < |balls| ==> Floor(balls[k].x) != x || Floor(balls[k].y) != y
    ensures y * width + x < |trail|
    ensures StampAll(FadedTrail(trail), width, height, BallDots(balls))[y * width + x] ==
      trail[y * width + x].Scale(TrailKeep)
  {
    StampAllKeeps(FadedTrail(trail), width, height, BallDots(balls), x, y);
  }

  /** A ball on the panel shows in its colour, unless a later ball lands on
      the same cell. */
  lemma BallShows(balls: seq<Ball>, trail: seq<Rgb>, width: nat, height: nat, k: nat)
    requires |trail| == width * height && k < |balls|
    requires 0 <= Floor(balls[k].x) < width && 0 <= Floor(balls[k].y) < height
    requires forall k' :: k < k' < |balls| ==>
      Floor(balls[k'].x) != Floor(balls[k].x) || Floor(balls[k'].y) != Floor(balls[k].y)
    ensures var i := Floor(balls[k].y) * width + Floor(balls[k].x);
      0 <= i < |trail| && StampAll(FadedTrail(trail), width, height, BallDots(balls))[i] == balls[k].color
  {
    Grid.CellIndex(width, height, Floor(balls[k].x), Floor(balls[k].y));
    StampAllLast(FadedTrail(trail), width, height, BallDots(balls), k);
  }

  /** _renderBouncing and _renderFlowField: the trail's colour, black where
      the trail has no such cell. */
  function TrailCell(trail: seq<Rgb>, width: nat, x: int, y: int): Rgb
  {
    var idx := y * width + x;
    if 0 <= idx < |trail| then trail[idx] else Black
  }
}
