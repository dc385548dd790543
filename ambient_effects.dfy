// The ambient effects of src/core/effects/ambient-effects.ts: full-panel
// animations that ignore the text grid. `init` builds one state per effect
// name, `step` advances it and `render` paints the panel from it; names the
// module has no case for do nothing at all.
module AmbientEffects {
  import opened Types
  import opened JsMath
  import opened Utils
  import opened Surface
  import Matrix
  import Fire
  import Water
  import Stars
  import Confetti
  import Fireworks
  import RainStorm
  import Munch
  import Bouncing

  /** The state each ambient effect keeps in its state record, one variant
      per effect name with an init case; `NoAmbient` for every other name. */
  datatype AmbientState =
    | NoAmbient
    | Rainbow(position: real)
    | MatrixRain(colorMode: Rgb, rows: seq<seq<Rgb>>)
    | Field(name: string, time: real)
    | Lava(time: real, noise: seq<real>)
    | Burning(heat: seq<real>, palette: seq<Rgb>)
    | Ripples(current: seq<real>, previous: seq<real>, damping: real)
    | Twinkle(stars: seq<Stars.Star>)
    | ConfettiFall(pieces: seq<Confetti.Confetto>)
    | Starfield(stars3d: seq<Stars.Star3>)
    | FireworksShow(rockets: seq<Fireworks.Rocket>, particles: seq<Fireworks.Particle>, spawnTimer: int)
    | Storm(drops: seq<RainStorm.Drop>, lightning: int, stormTime: int)
    | MunchingSquares(munch: Munch.MunchState)
    | BouncingBalls(balls: seq<Bouncing.Ball>, trail: seq<Rgb>)
    | FlowField(flowTime: real, motes: seq<Confetti.Mote>, flowTrail: seq<Rgb>)

  /** The closed-form colour fields whose state is only a clock. */
  const FieldNames: set<string> := {"plasma", "gradient", "plasma_wave", "radial_pulse", "hypnotic", "aurora"}

  /** Every effect name with a case in init, step and render. */
  const AmbientNames: set<string> := FieldNames + {
    "rainbow", "matrix", "fire", "water", "stars", "confetti", "lava", "starfield", "fireworks",
    "rain_storm", "munch", "bouncing", "flow_field"}

  /** How far a field's clock advances per step: 0.05 for plasma and
      gradient, 0.03 for the others. */
  function FieldRate(name: string): real
  {
    if name == "plasma" || name == "gradient" then 0.05 else 0.03
  }

  /** What each effect's state keeps true from init on, on a `width` by
      `height` panel. */
  ghost predicate Valid(s: AmbientState, width: nat, height: nat)
  {
    match s
    case NoAmbient => true
    case Rainbow(p) => 0.0 <= p < 1.0
    case MatrixRain(mode, rows) => mode.InByteRange() && Matrix.Shaped(rows, width, height) && Matrix.AllInByteRange(rows)
    case Field(name, t) => name in FieldNames && 0.0 <= t
    case Lava(t, noise) => 0.0 <= t && |noise| == width * height
    case Burning(heat, palette) =>
      |heat| == width * height && Fire.HeatInRange(heat) &&
      |palette| == 256 && forall i :: 0 <= i < 256 ==> palette[i] == Fire.PaletteEntry(i)
    case Ripples(current, previous, damping) =>
      |current| == width * height && |previous| == width * height && damping == 0.95 &&
      (width >= 3 && height >= 3 ==> Water.BorderStill(current, width, height) && Water.BorderStill(previous, width, height))
    case Twinkle(stars) => forall i :: 0 <= i < |stars| ==> Stars.OnPanel(stars[i], width, height)
    case ConfettiFall(pieces) => |pieces| == 20 && forall i :: 0 <= i < 20 ==> Confetti.PieceOk(pieces[i])
    case Starfield(stars) => |stars| == 40 && forall i :: 0 <= i < 40 ==> Stars.InDepth(stars[i], width)
    case FireworksShow(rockets, particles, _) =>
      |rockets| <= Fireworks.MaxRockets && forall i :: 0 <= i < |particles| ==> particles[i].life > 0.0
    case Storm(drops, lightning, time) =>
      |drops| == 30 && (forall i :: 0 <= i < 30 ==> RainStorm.DropOk(drops[i])) &&
      0 <= lightning <= RainStorm.FlashSteps && 0 <= time
    case MunchingSquares(m) => m.time >= 0 && (width >= 1 ==> Munch.Ok(m, width))
    case BouncingBalls(balls, trail) => |balls| == 6 && |trail| == width * height
    case FlowField(t, motes, trail) =>
      0.0 <= t && |motes| == 50 && |trail| == width * height && Confetti.TrailInRange(trail) && Confetti.HuesOk(motes)
  }

  // ---------------------------------------------------------------------
  // init

  /** `n` zeros, pushed one by one as init does for heat and water buffers. */
  method Zeros(n: nat) returns (r: seq<real>)
    ensures r == seq(n, _ => 0.0)
  {
    r := [];
    while |r| < n
      invariant |r| <= n && r == seq(|r|, _ => 0.0)
    {
      r := r + [0.0];
    }
  }

  /** The lava noise: one phase in [0, 2π) per cell. */
  method Noise(n: nat, host: Host) returns (r: seq<real>)
    requires host.Valid()
    ensures |r| == n && forall i :: 0 <= i < n ==> r[i] == host.Draw(i) * PI * 2.0
  {
    r := [];
    while |r| < n
      invariant |r| <= n && forall i :: 0 <= i < |r| ==> r[i] == host.Draw(i) * PI * 2.0
    {
      r := r + [host.Draw(|r|) * PI * 2.0];
    }
  }

  /** Which variant init builds for a name. */
  predicate BuiltFor(name: string, s: AmbientState)
  {
    match s
    case NoAmbient => name !in AmbientNames
    case Rainbow(_) => name == "rainbow"
    case MatrixRain(_, _) => name == "matrix"
    case Field(n, _) => name == n && n in FieldNames
    case Lava(_, _) => name == "lava"
    case Burning(_, _) => name == "fire"
    case Ripples(_, _, _) => name == "water"
    case Twinkle(_) => name == "stars"
    case ConfettiFall(_) => name == "confetti"
    case Starfield(_) => name == "starfield"
    case FireworksShow(_, _, _) => name == "fireworks"
    case Storm(_, _, _) => name == "rain_storm"
    case MunchingSquares(_) => name == "munch"
    case BouncingBalls(_, _) => name == "bouncing"
    case FlowField(_, _, _) => name == "flow_field"
  }

  /** The clocks, counters and buffers init starts at zero, black or empty. */
  predicate Initial(s: AmbientState, width: nat, height: nat)
  {
    match s
    case Rainbow(position) => position == 0.0
    case Field(_, time) => time == 0.0
    case Lava(time, _) => time == 0.0
    case Burning(heat, _) => heat == seq(width * height, _ => 0.0)
    case Ripples(current, previous, _) => current == previous == seq(width * height, _ => 0.0)
    case FireworksShow(rockets, particles, spawnTimer) => rockets == [] && particles == [] && spawnTimer == 0
    case Storm(_, lightning, stormTime) => lightning == 0 && stormTime == 0
    case MunchingSquares(munch) => munch == Munch.Initial
    case BouncingBalls(_, trail) => trail == seq(width * height, _ => Black)
    case FlowField(flowTime, _, flowTrail) => flowTime == 0.0 && flowTrail == seq(width * height, _ => Black)
    case _ => true
  }

  /** init: the starting state for an effect name, with the random fields
      drawn from the host; clocks, counters and buffers start at zero. */
  method Init(name: string, width: nat, height: nat, host: Host) returns (s: AmbientState)
    requires host.Valid()
    ensures BuiltFor(name, s) && Valid(s, width, height) && Initial(s, width, height)
  {
    if name in MovingNames {
      s := InitMoving(name, width, height, host);
    } else if name == "rainbow" {
      s := Rainbow(0.0);
    } else if name == "matrix" {
      var mode, rows := Matrix.Init(width, height, host);
      s := MatrixRain(mode, rows);
    } else if name in FieldNames {
      s := Field(name, 0.0);
    } else if name == "fire" {
      var heat := Zeros(width * height);
      var palette := Fire.CreatePalette();
      s := Burning(heat, palette);
    } else if name == "water" {
      var current := Zeros(width * height);
      var previous := Zeros(width * height);
      s := Ripples(current, previous, 0.95);
    } else if name == "lava" {
      var noise := Noise(width * height, host);
      s := Lava(0.0, noise);
    } else if name == "munch" {
      s := MunchingSquares(Munch.Initial);
    } else {
      NotAmbient(name);
      s := NoAmbient;
    }
  }

  /** The effects that move many things each, whose init draws them all. */
  const MovingNames: set<string> := {"stars", "confetti", "starfield", "fireworks", "rain_storm", "bouncing", "flow_field"}

  /** init for the effects that move many things each. */
  method InitMoving(name: string, width: nat, height: nat, host: Host) returns (s: AmbientState)
    requires host.Valid() && name in MovingNames
    ensures BuiltFor(name, s) && Valid(s, width, height) && Initial(s, width, height)
  {
    if name == "stars" {
      var stars := Stars.InitStars(width, height, host);
      s := Twinkle(stars);
    } else if name == "confetti" {
      var pieces := Confetti.InitConfetti(width, height, host);
      s := ConfettiFall(pieces);
    } else if name == "starfield" {
      var stars := Stars.InitStarfield(width, height, host);
      s := Starfield(stars);
    } else if name == "fireworks" {
      s := FireworksShow([], [], 0);
    } else {
      s := InitTrailed(name, width, height, host);
    }
  }

  /** init for the rain, the balls and the flow field, which also keep a
      trail buffer or a flash. */
  method InitTrailed(name: string, width: nat, height: nat, host: Host) returns (s: AmbientState)
    requires host.Valid() && name in {"rain_storm", "bouncing", "flow_field"}
    ensures BuiltFor(name, s) && Valid(s, width, height) && Initial(s, width, height)
  {
    if name == "rain_storm" {
      var drops, lightning, time := RainStorm.Init(width, height, host);
      s := Storm(drops, lightning, time);
    } else if name == "bouncing" {
      var balls, trail := Bouncing.Init(width, height, host);
      s := BouncingBalls(balls, trail);
    } else {
      var motes := Confetti.InitFlowField(width, height, host);
      var trail := BlackTrail(width * height);
      s := FlowField(0.0, motes, trail);
    }
  }

  /** A name matching none of init's cases is not an ambient effect name. */
  lemma NotAmbient(name: string)
    requires name !in FieldNames
    requires name != "rainbow" && name != "matrix" && name != "fire" && name != "water" && name != "stars"
    requires name != "confetti" && name != "lava" && name != "starfield" && name != "fireworks"
    requires name != "rain_storm" && name != "munch" && name != "bouncing" && name != "flow_field"
    ensures name !in AmbientNames
  {
  }

  /** `n` black cells, pushed one by one. */
  method BlackTrail(n: nat) returns (r: seq<Rgb>)
    ensures r == seq(n, _ => Black)
  {
    r := [];
    while |r| < n
      invariant |r| <= n && r == seq(|r|, _ => Black)
    {
      r := r + [Black];
    }
  }

  // ---------------------------------------------------------------------
  // step

  /** step: advances the state of the effect it was built for; the clocks
      of the colour fields by their rate, the rainbow by 0.01 modulo 1, the
      simulations through their own modules. */
  method Step(s: AmbientState, width: nat, height: nat, host: Host) returns (next: AmbientState)
    requires host.Valid() && Valid(s, width, height)
    ensures Valid(next, width, height)
    ensures SameEffect(s, next)
    ensures Advanced(s, next, width, height, host)
  {
    if s.MatrixRain? || s.Burning? || s.Ripples? {
      next := StepGrid(s, width, height, host);
    } else if s.Twinkle? || s.ConfettiFall? || s.Starfield? || s.FireworksShow? || s.Storm? || s.BouncingBalls? || s.FlowField? {
      next := StepMoving(s, width, height, host);
    } else {
      next := StepClock(s, width, height, host);
    }
  }

  /** What one step makes of each effect's state, as each effect's own step
      promises it: the same effect, with the clocks advanced, the rows shifted,
      the heat and ripples propagated, and every star, piece, rocket, spark,
      drop, ball and mote moved by the draws it takes in turn. */
  ghost predicate Advanced(s: AmbientState, next: AmbientState, width: nat, height: nat, host: Host)
    requires host.Valid()
  {
    match s
    case NoAmbient => next == s
    case Rainbow(p) => next == Rainbow(Frac(p + 0.01))
    case MatrixRain(mode, rows) =>
      next.MatrixRain? && next.colorMode == mode && Matrix.Shaped(next.rows, width, height) &&
      (height < 2 ==> next.rows == rows) &&
      (Matrix.Shaped(rows, width, height) && height >= 2 ==> forall y :: 1 <= y < height ==> next.rows[y] == rows[y - 1]) &&
      (Matrix.Shaped(rows, width, height) && height >= 2 ==> forall x :: 0 <= x < width ==>
        next.rows[0][x] ==
          Matrix.ReseededCell(rows[0][x].Scale(1.0 - Matrix.FadeAmount), mode, host, Matrix.SeedStart(host, x)))
    case Field(name, t) => next == Field(name, t + FieldRate(name))
    case Lava(t, noise) => next == Lava(t + 0.03, noise)
    case Burning(heat, palette) =>
      next.Burning? && next.palette == palette && |next.heat| == |heat| &&
      (|heat| == width * height && width >= 1 && height >= 2 ==> forall j :: 0 <= j < (height - 1) * width ==>
        next.heat[j] == Fire.Propagate(Fire.Cooled(heat, host), width, height - 2, width)[j]) &&
      (|heat| == width * height && width >= 1 && height >= 1 ==> forall j :: (height - 1) * width <= j < |heat| ==>
        next.heat[j] ==
          Fire.Sparked(Fire.Cooled(heat, host)[j], host, Fire.SparkStart(host, width * height, j - (height - 1) * width)))
    case Ripples(current, previous, damping) =>
      next.Ripples? && next.previous == current && next.damping == damping && |next.current| == |current| &&
      (|current| == width * height && |previous| == width * height ==>
       forall x, y {:trigger Water.Idx(width, height, x, y)} :: Water.Interior(width, height, x, y) ==>
        next.current[Water.Idx(width, height, x, y)] ==
          if Water.DropsOn(host, width, height, x, y) then 255.0
          else Water.RippleCell(previous, current, width, height, damping, x, y)) &&
      (|current| == width * height && width >= 3 && height >= 3 ==>
       forall x, y {:trigger Water.Idx(width, height, x, y)} ::
         Water.InGrid(width, height, x, y) && !Water.Interior(width, height, x, y) ==>
           next.current[Water.Idx(width, height, x, y)] == current[Water.Idx(width, height, x, y)])
    case Twinkle(stars) =>
      next.Twinkle? && |next.stars| == |stars| &&
      forall i :: 0 <= i < |stars| ==> next.stars[i] == stars[i].(phase := stars[i].phase + stars[i].speed)
    case ConfettiFall(pieces) =>
      next.ConfettiFall? && |next.pieces| == |pieces| &&
      forall i :: 0 <= i < |pieces| ==>
        next.pieces[i] == Confetti.Fallen(pieces[i], width, height, host, 7 * Confetti.Respawns(pieces[..i], height))
    case Starfield(stars) =>
      next.Starfield? && |next.stars3d| == |stars| &&
      forall i :: 0 <= i < |stars| ==>
        next.stars3d[i] == Stars.Approached(stars[i], width, height, host, 2 * Stars.Resets(stars[..i]))
    case FireworksShow(rockets, particles, timer) =>
      var spawns := Fireworks.Spawns(timer, rockets);
      var flying := if spawns then rockets + [Fireworks.Launched(width, height, host)] else rockets;
      var aged := Fireworks.Surviving(particles);
      next.FireworksShow? && next.spawnTimer == (if spawns then 0 else timer + 1) &&
      next.rockets == Fireworks.Kept(flying) &&
      |aged| <= |next.particles| && next.particles[..|aged|] == aged &&
      16 * Fireworks.BurstCount(flying) <= |next.particles| - |aged| <= 23 * Fireworks.BurstCount(flying) &&
      forall j :: |aged| <= j < |next.particles| ==> next.particles[j].life == 0.98
    case Storm(drops, lightning, time) =>
      next.Storm? && next.stormTime == time + 1 && |next.drops| == |drops| &&
      (forall i :: 0 <= i < |drops| ==>
        next.drops[i] == RainStorm.Fallen(drops[i], width, height, host, RainStorm.DrawsAll(drops[..i], height))) &&
      next.lightning == RainStorm.Flash(lightning, host.Draw(RainStorm.DrawsAll(drops, height)) < RainStorm.FlashChance)
    case MunchingSquares(m) => next == MunchingSquares(Munch.Step(m, width))
    case BouncingBalls(balls, trail) =>
      next.BouncingBalls? && |next.balls| == |balls| &&
      (forall i :: 0 <= i < |balls| ==> next.balls[i] == Bouncing.Moved(balls[i], width, height)) &&
      next.trail == StampAll(Bouncing.FadedTrail(trail), width, height, Bouncing.BallDots(next.balls))
    case FlowField(t, motes, trail) =>
      next.FlowField? && next.flowTime == t + 0.02 && |next.motes| == |motes| &&
      (forall i :: 0 <= i < |motes| ==> next.motes[i] == Confetti.Drifted(motes[i], next.flowTime, width, height, host)) &&
      next.flowTrail == Confetti.PaintMotes(Confetti.FadedTrail(trail), next.motes, width, height)
  }

  /** The step of the effects that keep only clocks and counters: the
      rainbow, the colour fields, the lava and the munching squares. */
  method StepClock(s: AmbientState, width: nat, height: nat, host: Host) returns (next: AmbientState)
    requires host.Valid() && Valid(s, width, height)
    requires s.NoAmbient? || s.Rainbow? || s.Field? || s.Lava? || s.MunchingSquares?
    ensures Valid(next, width, height) && SameEffect(s, next) && Advanced(s, next, width, height, host)
  {
    match s {
      case NoAmbient =>
        next := s;
      case Rainbow(p) =>
        next := Rainbow(Frac(p + 0.01));
      case Field(name, t) =>
        next := Field(name, t + FieldRate(name));
      case Lava(t, noise) =>
        next := Lava(t + 0.03, noise);
      case MunchingSquares(m) =>
        if width >= 1 {
          Munch.StepKeepsOk(m, width);
        }
        next := MunchingSquares(Munch.Step(m, width));
    }
  }

  /** The step of the effects that keep a grid: the matrix rows, the fire's
      heat and the water's ripples. */
  method StepGrid(s: AmbientState, width: nat, height: nat, host: Host) returns (next: AmbientState)
    requires host.Valid() && Valid(s, width, height)
    requires s.MatrixRain? || s.Burning? || s.Ripples?
    ensures Valid(next, width, height) && SameEffect(s, next) && Advanced(s, next, width, height, host)
  {
    match s {
      case MatrixRain(mode, rows) =>
        var r := Matrix.Step(rows, mode, width, height, host);
        next := MatrixRain(mode, r);
      case Burning(heat, palette) =>
        var h := Fire.Step(heat, width, height, host);
        next := Burning(h, palette);
      case Ripples(current, previous, damping) =>
        next := StepWater(current, previous, damping, width, height, host);
    }
  }

  /** The step of the effects that move many things each: the stars, the
      confetti, the starfield, the fireworks, the rain, the balls and the
      flow field. */
  method StepMoving(s: AmbientState, width: nat, height: nat, host: Host) returns (next: AmbientState)
    requires host.Valid() && Valid(s, width, height)
    requires s.Twinkle? || s.ConfettiFall? || s.Starfield? || s.FireworksShow? || s.Storm? || s.BouncingBalls? || s.FlowField?
    ensures Valid(next, width, height) && SameEffect(s, next) && Advanced(s, next, width, height, host)
  {
    match s {
      case Twinkle(stars) =>
        var st := Stars.StepStars(stars);
        next := Twinkle(st);
      case ConfettiFall(pieces) =>
        var ps := Confetti.StepConfetti(pieces, width, height, host);
        next := ConfettiFall(ps);
      case Starfield(stars) =>
        var st := Stars.StepStarfield(stars, width, height, host);
        next := Starfield(st);
      case FireworksShow(rockets, particles, timer) =>
        var r, p, t := Fireworks.Step(rockets, particles, timer, width, height, host);
        next := FireworksShow(r, p, t);
      case Storm(drops, lightning, time) =>
        var d, l, t := RainStorm.Step(drops, lightning, time, width, height, host);
        next := Storm(d, l, t);
      case BouncingBalls(balls, trail) =>
        var b, tr := Bouncing.Step(balls, trail, width, height);
        next := BouncingBalls(b, tr);
      case FlowField(t, motes, trail) =>
        var m, tr, nt := Confetti.StepFlowField(motes, trail, t, width, height, host);
        next := FlowField(nt, m, tr);
    }
  }

  /** The water step, keeping the borders still on panels of at least 3 by 3. */
  method StepWater(current: seq<real>, previous: seq<real>, damping: real, width: nat, height: nat, host: Host)
    returns (next: AmbientState)
    requires host.Valid() && Valid(Ripples(current, previous, damping), width, height)
    ensures next.Ripples? && Valid(next, width, height)
    ensures Advanced(Ripples(current, previous, damping), next, width, height, host)
  {
    var c, p := Water.Step(current, previous, width, height, damping, host);
    if width >= 3 && height >= 3 {
      Water.StepKeepsBorderStill(current, previous, c, p, width, height, damping);
    }
    next := Ripples(c, p, damping);
  }

  /** Two states of the same effect: the same variant, and for a colour
      field the same field name. */
  predicate SameEffect(s: AmbientState, t: AmbientState)
  {
    match s
    case NoAmbient => t.NoAmbient?
    case Rainbow(_) => t.Rainbow?
    case MatrixRain(_, _) => t.MatrixRain?
    case Field(name, _) => t.Field? && t.name == name
    case Lava(_, _) => t.Lava?
    case Burning(_, _) => t.Burning?
    case Ripples(_, _, _) => t.Ripples?
    case Twinkle(_) => t.Twinkle?
    case ConfettiFall(_) => t.ConfettiFall?
    case Starfield(_) => t.Starfield?
    case FireworksShow(_, _, _) => t.FireworksShow?
    case Storm(_, _, _) => t.Storm?
    case MunchingSquares(_) => t.MunchingSquares?
    case BouncingBalls(_, _) => t.BouncingBalls?
    case FlowField(_, _, _) => t.FlowField?
  }

  /** States of the same effect were built for the same names: step never
      turns one effect's state into another's. */
  lemma SameEffectSameName(name: string, s: AmbientState, t: AmbientState)
    requires SameEffect(s, t)
    ensures BuiltFor(name, s) <==> BuiltFor(name, t)
  {
  }

  /** Names without a case keep no state and step to the same nothing. */
  lemma UnknownStaysIdle(name: string, s: AmbientState)
    requires name !in AmbientNames && BuiltFor(name, s)
    ensures s == NoAmbient
  {
  }

  // ---------------------------------------------------------------------
  // render

  /** _renderRainbow's colour for column x: the hue runs once across the
      panel, shifted by the position. */
  function RainbowCell(position: real, width: nat, x: int): Rgb
  {
    if width == 0 then Black else HsvToRgb(Frac(position + x as real / width as real), 1.0, 0.6)
  }

  /** The colour every cell gets from the full-panel pass of a render, and
      the overlay dots stamped over it afterwards. */
  function Background(s: AmbientState, width: nat, host: Host, x: int, y: int): Rgb
  {
    match s
    case NoAmbient => Black
    case Rainbow(p) => RainbowCell(p, width, x)
    case MatrixRain(_, rows) => Matrix.Cell(rows, x, y)
    case Field(name, t) => host.field(name, t, x, y)
    case Lava(t, _) => host.field("lava", t, x, y)
    case Burning(heat, palette) => Fire.Cell(heat, palette, width, x, y)
    case Ripples(current, _, _) => Water.Cell(current, width, x, y)
    case Twinkle(_) => Stars.StarsBackground
    case ConfettiFall(_) => Confetti.ConfettiBackground
    case Starfield(_) => Stars.StarfieldBackground
    case FireworksShow(_, _, _) => Fireworks.Background
    case Storm(_, lightning, _) => RainStorm.Background(lightning)
    case MunchingSquares(m) => Munch.Cell(m, x, y)
    case BouncingBalls(_, trail) => Bouncing.TrailCell(trail, width, x, y)
    case FlowField(_, _, trail) => Bouncing.TrailCell(trail, width, x, y)
  }

  function Overlay(s: AmbientState, width: nat, height: nat, host: Host): seq<Dot>
  {
    match s
    case Twinkle(stars) => Stars.StarDots(stars, host.sin)
    case ConfettiFall(pieces) => Confetti.PieceDots(pieces, host.sin)
    case Starfield(stars) => Stars.StarfieldDots(stars, width, height)
    case FireworksShow(rockets, particles, _) => Fireworks.Dots(rockets, particles)
    case Storm(drops, _, _) => RainStorm.Streaks(drops)
    case _ => []
  }

  /** The panel a render leaves: unchanged for a name without a case;
      otherwise every cell from the full-panel pass, then the overlay. */
  function Picture(s: AmbientState, width: nat, height: nat, host: Host, buffer: seq<Rgb>): (r: seq<Rgb>)
    requires |buffer| == width * height
    ensures |r| == |buffer|
  {
    if s.NoAmbient? then buffer
    else
      var painted := seq(|buffer|, j requires 0 <= j < |buffer| => Background(s, width, host, j % width, j / width));
      StampAll(painted, width, height, Overlay(s, width, height, host))
  }

  /** render: paints the panel from the state. */
  method Render(surface: LedSurface, s: AmbientState, host: Host)
    requires surface.Valid()
    modifies surface`buffer
    ensures surface.Valid()
    ensures surface.buffer == Picture(s, surface.width, surface.height, host, old(surface.buffer))
  {
    if !s.NoAmbient? {
      var w, n := surface.width, |surface.buffer|;
      assert n == w * surface.height;
      surface.PaintAll((x, y) => Background(s, w, host, x, y));
      assert surface.buffer == seq(n, j requires 0 <= j < n => Background(s, w, host, j % w, j / w));
      surface.Stamp(Overlay(s, surface.width, surface.height, host));
    }
  }

  /** A name without a case leaves the panel exactly as it was. */
  lemma UnknownLeavesPanel(name: string, s: AmbientState, width: nat, height: nat, host: Host, buffer: seq<Rgb>)
    requires name !in AmbientNames && BuiltFor(name, s) && |buffer| == width * height
    ensures Picture(s, width, height, host, buffer) == buffer
  {
    UnknownStaysIdle(name, s);
  }

  /** The effects without overlay show exactly their full-panel pass: each
      cell the colour its own position gives it. */
  lemma CellwisePicture(s: AmbientState, width: nat, height: nat, host: Host, buffer: seq<Rgb>, j: int)
    requires |buffer| == width * height && 0 <= j < |buffer| && !s.NoAmbient?
    requires Overlay(s, width, height, host) == []
    ensures Picture(s, width, height, host, buffer)[j] == Background(s, width, host, j % width, j / width)
  {
  }
}
