// The confetti and flow_field effects of src/core/effects/ambient-effects.ts:
// falling, shimmering confetti pieces, and particles that drift along a
// sine flow field, painting additive trails that wrap around the panel.
module Confetti {
  import opened Types
  import opened JsMath
  import opened Utils
  import opened Surface
  import Grid

  // ---------------------------------------------------------------------
  // confetti

  datatype Confetto = Confetto(x: real, y: real, speed: real, drift: real, color: Rgb, size: real,
                               rotation: real, rotationSpeed: real)

  /** The eight confetti colours. */
  const Colors: seq<Rgb> := [
    Rgb(255.0, 0.0, 0.0), Rgb(0.0, 255.0, 0.0), Rgb(0.0, 0.0, 255.0), Rgb(255.0, 255.0, 0.0),
    Rgb(255.0, 0.0, 255.0), Rgb(0.0, 255.0, 255.0), Rgb(255.0, 128.0, 0.0), Rgb(255.0, 192.0, 203.0)]

  /** A piece as _createConfettiParticle makes them: falling at 0.2 to 0.5
      cells a step, drifting less than 0.15 sideways, in one of the colours. */
  predicate PieceOk(c: Confetto)
  {
    0.2 <= c.speed < 0.5 && -0.15 <= c.drift < 0.15 && c.color in Colors
  }

  /** _createConfettiParticle with draws from `k`: a random row, or row -2
      just above the panel. */
  function NewPiece(width: nat, height: nat, randomY: bool, host: Host, k: nat): (c: Confetto)
    requires host.Valid()
    ensures PieceOk(c)
    ensures !randomY ==> c.y == -2.0
  {
    var j := if randomY then k + 2 else k + 1;
    FloorDraw(host.Draw(j + 2), |Colors|);
    Confetto(host.Draw(k) * width as real, if randomY then host.Draw(k + 1) * height as real else -2.0,
             0.2 + host.Draw(j) * 0.3, (host.Draw(j + 1) - 0.5) * 0.3, Colors[Floor(host.Draw(j + 2) * 8.0)],
             1.0 + host.Draw(j + 3), host.Draw(j + 4) * PI * 2.0, (host.Draw(j + 5) - 0.5) * 0.2)
  }

  /** The confetti part of init: twenty pieces scattered over the panel. */
  method InitConfetti(width: nat, height: nat, host: Host) returns (pieces: seq<Confetto>)
    requires host.Valid()
    ensures |pieces| == 20 && forall i :: 0 <= i < 20 ==> pieces[i] == NewPiece(width, height, true, host, 8 * i)
  {
    pieces := [];
    var i := 0;
    while i < 20
      invariant 0 <= i <= 20 && |pieces| == i
      invariant forall j :: 0 <= j < i ==> pieces[j] == NewPiece(width, height, true, host, 8 * j)
    {
      pieces := pieces + [NewPiece(width, height, true, host, 8 * i)];
      i := i + 1;
    }
  }

  /** A piece after one step: it falls by its speed, drifts and turns; one
      that has fallen below the panel is replaced by a new piece above it,
      taking seven draws from `k`. */
  function Fallen(c: Confetto, width: nat, height: nat, host: Host, k: nat): Confetto
    requires host.Valid()
  {
    var moved := c.(y := c.y + c.speed, x := c.x + c.drift, rotation := c.rotation + c.rotationSpeed);
    if moved.y > height as real then NewPiece(width, height, false, host, k) else moved
  }

  /** No piece is below the panel after a step, and pieces stay well formed. */
  lemma FallenOnPanel(c: Confetto, width: nat, height: nat, host: Host, k: nat)
    requires host.Valid() && PieceOk(c)
    ensures Fallen(c, width, height, host, k).y <= height as real
    ensures PieceOk(Fallen(c, width, height, host, k))
    ensures c.y + c.speed <= height as real ==> Fallen(c, width, height, host, k).y == c.y + c.speed
  {
  }

  /** Whether a piece falls below the panel on this step, and is replaced. */
  predicate FallsOff(c: Confetto, height: nat)
  {
    c.y + c.speed > height as real
  }

  /** How many of `pieces` are replaced on a step; each replacement takes
      seven draws, as a piece made above the panel draws no row. */
  function Respawns(pieces: seq<Confetto>, height: nat): nat
  {
    if pieces == [] then 0
    else Respawns(pieces[..|pieces| - 1], height) + (if FallsOff(pieces[|pieces| - 1], height) then 1 else 0)
  }

  /** Every piece of a confetti step stays well formed and on or above the
      bottom row. */
  lemma StepKeepsPieces(pieces: seq<Confetto>, next: seq<Confetto>, width: nat, height: nat, host: Host)
    requires host.Valid() && |next| == |pieces| && forall i :: 0 <= i < |pieces| ==> PieceOk(pieces[i])
    requires forall i :: 0 <= i < |pieces| ==>
      next[i] == Fallen(pieces[i], width, height, host, 7 * Respawns(pieces[..i], height))
    ensures forall i :: 0 <= i < |next| ==> PieceOk(next[i]) && next[i].y <= height as real
  {
    forall i | 0 <= i < |next| ensures PieceOk(next[i]) && next[i].y <= height as real {
      FallenOnPanel(pieces[i], width, height, host, 7 * Respawns(pieces[..i], height));
    }
  }

  /** `next` holds the first pieces of a confetti step over `pieces`. */
  ghost predicate FallenPrefix(pieces: seq<Confetto>, next: seq<Confetto>, width: nat, height: nat, host: Host)
    requires host.Valid()
  {
    |next| <= |pieces| &&
    forall j :: 0 <= j < |next| ==> next[j] == Fallen(pieces[j], width, height, host, 7 * Respawns(pieces[..j], height))
  }

  /** One pass of the confetti loop extends the prefix by the next piece,
      replaced from the draws after the earlier replacements. */
  lemma FallenPrefixNext(pieces: seq<Confetto>, next: seq<Confetto>, width: nat, height: nat, host: Host)
    requires host.Valid() && FallenPrefix(pieces, next, width, height, host) && |next| < |pieces|
    ensures var i := |next|;
      FallenPrefix(pieces, next + [Fallen(pieces[i], width, height, host, 7 * Respawns(pieces[..i], height))],
                   width, height, host)
    ensures var i := |next|;
      Respawns(pieces[..i + 1], height) == Respawns(pieces[..i], height) + if FallsOff(pieces[i], height) then 1 else 0
  {
    var i := |next|;
    assert pieces[..i + 1][..i] == pieces[..i];
  }

  /** The confetti step: each piece in turn falls, drifts and turns, and a
      piece below the panel is replaced, the replacements taking seven draws
      each in order. */
  method StepConfetti(pieces: seq<Confetto>, width: nat, height: nat, host: Host) returns (next: seq<Confetto>)
    requires host.Valid() && forall i :: 0 <= i < |pieces| ==> PieceOk(pieces[i])
    ensures |next| == |pieces|
    ensures forall i :: 0 <= i < |pieces| ==>
      next[i] == Fallen(pieces[i], width, height, host, 7 * Respawns(pieces[..i], height))
    ensures forall i :: 0 <= i < |next| ==> PieceOk(next[i]) && next[i].y <= height as real
  {
    next := [];
    var k: nat := 0;
    var i := 0;
    while i < |pieces|
      invariant 0 <= i <= |pieces| && |next| == i && k == 7 * Respawns(pieces[..i], height)
      invariant FallenPrefix(pieces, next, width, height, host)
    {
      FallenPrefixNext(pieces, next, width, height, host);
      next := next + [Fallen(pieces[i], width, height, host, k)];
      if FallsOff(pieces[i], height) {
        k := k + 7;
      }
      i := i + 1;
    }
    StepKeepsPieces(pieces, next, width, height, host);
  }


  const ConfettiBackground := Rgb(10.0, 10.0, 10.0)

  /** A piece's dot: its colour scaled by a shimmer in [0.5, 1] that follows
      the sine of its rotation. */
  function PieceDot(c: Confetto, sin: real -> real): Dot
  {
    Dot(Floor(c.x), Floor(c.y), c.color.Scale(AbsR(sin(c.rotation)) * 0.5 + 0.5))
  }

  function PieceDots(pieces: seq<Confetto>, sin: real -> real): (d: seq<Dot>)
    ensures |d| == |pieces|
  {
    seq(|pieces|, i requires 0 <= i < |pieces| => PieceDot(pieces[i], sin))
  }

  /** With the sine bounded by 1, a piece's dot is a byte colour no brighter
      than its own colour. */
  lemma PieceDotInRange(c: Confetto, host: Host)
    requires host.Valid() && PieceOk(c)
    ensures PieceDot(c, host.sin).color.InByteRange()
    ensures var d := PieceDot(c, host.sin).color; d.r <= c.color.r && d.g <= c.color.g && d.b <= c.color.b
  {
    var shimmer := AbsR(host.sin(c.rotation)) * 0.5 + 0.5;
    assert 0.5 <= shimmer <= 1.0;
    ScaleDims(c.color, shimmer);
  }

  // ---------------------------------------------------------------------
  // flow_field

  datatype Mote = Mote(x: real, y: real, hue: real)

  /** Mote `i` of init: a position on the panel and a hue, from three draws. */
  function NewMote(width: nat, height: nat, host: Host, i: nat): Mote
    requires host.Valid()
  {
    Mote(host.Draw(3 * i) * width as real, host.Draw(3 * i + 1) * height as real, host.Draw(3 * i + 2))
  }

  /** A mote lies on the panel with a hue in [0, 1). */
  predicate MoteOk(m: Mote, width: nat, height: nat)
  {
    0.0 <= m.x < width as real && 0.0 <= m.y < height as real && 0.0 <= m.hue < 1.0
  }

  lemma NewMoteOk(width: nat, height: nat, host: Host, i: nat)
    requires host.Valid() && width >= 1 && height >= 1
    ensures MoteOk(NewMote(width, height, host, i), width, height)
  {
    var d0, d1 := host.Draw(3 * i), host.Draw(3 * i + 1);
    assert d0 * width as real < width as real;
    assert d1 * height as real < height as real;
  }

  /** The flow_field part of init: fifty motes. */
  method InitFlowField(width: nat, height: nat, host: Host) returns (motes: seq<Mote>)
    requires host.Valid()
    ensures |motes| == 50 && forall i :: 0 <= i < 50 ==> motes[i] == NewMote(width, height, host, i)
  {
    motes := [];
    var i := 0;
    while i < 50
      invariant 0 <= i <= 50 && |motes| == i
      invariant forall j :: 0 <= j < i ==> motes[j] == NewMote(width, height, host, j)
    {
      motes := motes + [NewMote(width, height, host, i)];
      i := i + 1;
    }
  }

  /** Wrap-around at the panel edge: one size added below 0, one taken off at
      or beyond the size. */
  function Wrap(v: real, size: nat): real
  {
    var a := if v < 0.0 then v + size as real else v;
    if a >= size as real then a - size as real else a
  }

  /** A step of less than one panel size from a point on the panel wraps back
      onto the panel. */
  lemma WrapInRange(v: real, size: nat)
    requires -(size as real) <= v < 2.0 * size as real
    ensures 0.0 <= Wrap(v, size) < size as real
  {
  }

  /** The flow direction at a mote: three layered sines of its position and time. */
  function Angle(m: Mote, time: real, host: Host): real
  {
    host.sin(m.x * 0.3 + time) * 2.0 + host.cos(m.y * 0.3 + time * 0.7) * 2.0 + host.sin((m.x + m.y) * 0.2 + time * 1.3)
  }

  /** A mote after one step: half a cell along the flow, wrapped, its hue
      advanced by 0.002 modulo 1. */
  function Drifted(m: Mote, time: real, width: nat, height: nat, host: Host): Mote
  {
    var a := Angle(m, time, host);
    Mote(Wrap(m.x + host.cos(a) * 0.5, width), Wrap(m.y + host.sin(a) * 0.5, height), Frac(m.hue + 0.002))
  }

  /** Motes never leave a panel at least one cell wide and high. */
  lemma DriftedOk(m: Mote, time: real, width: nat, height: nat, host: Host)
    requires host.Valid() && width >= 1 && height >= 1 && MoteOk(m, width, height)
    ensures MoteOk(Drifted(m, time, width, height, host), width, height)
  {
    var a := Angle(m, time, host);
    assert -1.0 <= host.cos(a) <= 1.0 && -1.0 <= host.sin(a) <= 1.0;
    WrapInRange(m.x + host.cos(a) * 0.5, width);
    WrapInRange(m.y + host.sin(a) * 0.5, height);
  }

  /** The trail fade: every cell at 0.92 of its colour. */
  function FadedTrail(trail: seq<Rgb>): (r: seq<Rgb>)
    ensures |r| == |trail|
  {
    seq(|trail|, i requires 0 <= i < |trail| => trail[i].Scale(0.92))
  }

  /** A mote's paint: half its colour added to the cell, each channel capped at 255. */
  function Painted(cell: Rgb, m: Mote): Rgb
  {
    var c := HsvToRgb(m.hue, 0.8, 0.9);
    Rgb(MinR(255.0, cell.r + c.r * 0.5), MinR(255.0, cell.g + c.g * 0.5), MinR(255.0, cell.b + c.b * 0.5))
  }

  /** Painting never darkens a cell and keeps a byte colour a byte colour. */
  lemma PaintedInRange(cell: Rgb, m: Mote)
    requires cell.InByteRange() && 0.0 <= m.hue
    ensures Painted(cell, m).InByteRange()
    ensures Painted(cell, m).r >= cell.r && Painted(cell, m).g >= cell.g && Painted(cell, m).b >= cell.b
  {
    HsvInRange(m.hue, 0.8, 0.9);
  }

  /** A mote paints the trail cell under it, if that cell is on the panel. */
  function PaintMote(trail: seq<Rgb>, m: Mote, width: nat, height: nat): (r: seq<Rgb>)
    ensures |r| == |trail|
  {
    var px, py := Floor(m.x), Floor(m.y);
    if 0 <= px < width && 0 <= py < height && py * width + px < |trail| then
      trail[py * width + px := Painted(trail[py * width + px], m)]
    else trail
  }

  /** The motes paint the trail one after another, in their order. */
  function PaintMotes(trail: seq<Rgb>, motes: seq<Mote>, width: nat, height: nat): (r: seq<Rgb>)
    ensures |r| == |trail|
  {
    if motes == [] then trail
    else PaintMote(PaintMotes(trail, motes[..|motes| - 1], width, height), motes[|motes| - 1], width, height)
  }

  /** Every trail colour is a byte colour. */
  predicate TrailInRange(trail: seq<Rgb>)
  {
    forall i :: 0 <= i < |trail| ==> trail[i].InByteRange()
  }

  /** Every mote's hue is non-negative, as init and each step leave it. */
  predicate HuesOk(motes: seq<Mote>)
  {
    forall i :: 0 <= i < |motes| ==> 0.0 <= motes[i].hue
  }

  /** _stepFlowField: time advances by 0.02, the trail fades to 0.92, then
      each mote in turn drifts along the flow and paints the cell under it. */
  method StepFlowField(motes: seq<Mote>, trail: seq<Rgb>, time: real, width: nat, height: nat, host: Host)
    returns (nextMotes: seq<Mote>, nextTrail: seq<Rgb>, nextTime: real)
    requires host.Valid()
    ensures nextTime == time + 0.02
    ensures |nextMotes| == |motes| && |nextTrail| == |trail|
    ensures forall i :: 0 <= i < |motes| ==> nextMotes[i] == Drifted(motes[i], nextTime, width, height, host)
    ensures width >= 1 && height >= 1 ==> forall i :: 0 <= i < |motes| && MoteOk(motes[i], width, height) ==>
      MoteOk(nextMotes[i], width, height)
    ensures nextTrail == PaintMotes(FadedTrail(trail), nextMotes, width, height)
    ensures TrailInRange(trail) && HuesOk(motes) ==> TrailInRange(nextTrail)
    ensures HuesOk(motes) ==> HuesOk(nextMotes)
  {
    nextTime := time + 0.02;
    nextTrail := FadedTrail(trail);
    nextMotes := [];
    var i := 0;
    while i < |motes|
      invariant 0 <= i <= |motes| && |nextMotes| == i && |nextTrail| == |trail|
      invariant forall j :: 0 <= j < i ==> nextMotes[j] == Drifted(motes[j], nextTime, width, height, host)
      invariant nextTrail == PaintMotes(FadedTrail(trail), nextMotes, width, height)
    {
      var m := Drifted(motes[i], nextTime, width, height, host);
      var px, py := Floor(m.x), Floor(m.y);
      if 0 <= px < width && 0 <= py < height {
        var idx := py * width + px;
        if idx < |nextTrail| {
          nextTrail := nextTrail[idx := Painted(nextTrail[idx], m)];
        }
      }
      assert (nextMotes + [m])[..i] == nextMotes;
      nextMotes := nextMotes + [m];
      i := i + 1;
    }
    DriftedAll(motes, nextMotes, nextTime, width, height, host);
    if TrailInRange(trail) && HuesOk(motes) {
      FadedInRange(trail);
      PaintMotesInRange(FadedTrail(trail), nextMotes, width, height);
    }
  }

  /** Drifting keeps every mote on a panel at least one cell wide and high,
      and every hue non-negative. */
  lemma DriftedAll(motes: seq<Mote>, next: seq<Mote>, time: real, width: nat, height: nat, host: Host)
    requires host.Valid() && |next| == |motes|
    requires forall i :: 0 <= i < |motes| ==> next[i] == Drifted(motes[i], time, width, height, host)
    ensures width >= 1 && height >= 1 ==> forall i :: 0 <= i < |motes| && MoteOk(motes[i], width, height) ==>
      MoteOk(next[i], width, height)
    ensures HuesOk(motes) ==> HuesOk(next)
  {
    if width >= 1 && height >= 1 {
      forall i | 0 <= i < |motes| && MoteOk(motes[i], width, height) ensures MoteOk(next[i], width, height) {
        DriftedOk(motes[i], time, width, height, host);
      }
    }
  }

  /** The 0.92 fade keeps byte colours byte colours. */
  lemma FadedInRange(trail: seq<Rgb>)
    requires TrailInRange(trail)
    ensures TrailInRange(FadedTrail(trail))
  {
    forall i | 0 <= i < |trail| ensures FadedTrail(trail)[i].InByteRange() {
      ScaleDims(trail[i], 0.92);
    }
  }

  /** Motes with non-negative hues paint a trail of byte colours into one. */
  lemma {:induction false} PaintMotesInRange(trail: seq<Rgb>, motes: seq<Mote>, width: nat, height: nat)
    requires TrailInRange(trail) && HuesOk(motes)
    ensures TrailInRange(PaintMotes(trail, motes, width, height))
  {
    if motes != [] {
      var init, m := motes[..|motes| - 1], motes[|motes| - 1];
      assert HuesOk(init) by {
        forall i | 0 <= i < |init| ensures 0.0 <= init[i].hue { assert init[i] == motes[i]; }
      }
      PaintMotesInRange(trail, init, width, height);
      var t := PaintMotes(trail, init, width, height);
      var px, py := Floor(m.x), Floor(m.y);
      if 0 <= px < width && 0 <= py < height && py * width + px < |t| {
        PaintedInRange(t[py * width + px], m);
      }
    }
  }

}
