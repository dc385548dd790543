// Text effects (src/core/effects/text-effects.ts): effects that reveal,
// move or modulate the text grid the renderer was given.
module TextEffects {
  import opened Types
  import opened JsMath
  import opened Utils
  import opened Surface
  import Grid

  datatype Sparkle = Sparkle(x: int, y: int, brightness: real, speed: real)

  /** The fields each text effect keeps in its state record, one variant per
      effect whose `init` has a case; `Plain` for the names that have none
      (fixed, closing, slice, mesh, random and the diagonal scrolls). */
  datatype TextState =
    | Plain
    | ScrollLtr(offset: int)
    | ScrollRtl(offset: int)
    | Blink(visible: bool)
    | Snow(phases: seq<real>)
    | Breeze(phases: seq<real>)
    | Laser(position: int)
    | Fade(opacity: real, direction: int)
    | Typewriter(charIndex: int, cursorVisible: bool)
    | Bounce(offset: int, direction: int)
    | Sparkles(sparkles: seq<Sparkle>)
    | ScrollUp(yOffset: int)
    | ScrollDown(yOffset: int)
    | Dissolve(thresholds: seq<real>, progress: real, direction: int)
    | Blinds(progress: real, direction: int)
    | Wipe(wipeX: int, direction: int)
    | ScanHoriz(scanX: int, revealed: bool, direction: int)
    | ScanVert(scanY: int, revealed: bool, direction: int)
    | GrowUp(rows: int, direction: int)
    | GrowDown(rows: int, direction: int)
    | Opening(halfWidth: int, direction: int)

  /** The state variant `init` creates for each effect name. */
  predicate VariantOf(name: string, s: TextState)
  {
    match s
    case Plain => name !in InitNames()
    case ScrollLtr(_) => name == "scroll_ltr"
    case ScrollRtl(_) => name == "scroll_rtl"
    case Blink(_) => name == "blink"
    case Snow(_) => name == "snow"
    case Breeze(_) => name == "breeze"
    case Laser(_) => name == "laser"
    case Fade(_, _) => name == "fade"
    case Typewriter(_, _) => name == "typewriter"
    case Bounce(_, _) => name == "bounce"
    case Sparkles(_) => name == "sparkle"
    case ScrollUp(_) => name == "scroll_up"
    case ScrollDown(_) => name == "scroll_down"
    case Dissolve(_, _, _) => name == "dissolve"
    case Blinds(_, _) => name == "blinds"
    case Wipe(_, _) => name == "wipe"
    case ScanHoriz(_, _, _) => name == "scan_horiz"
    case ScanVert(_, _, _) => name == "scan_vert"
    case GrowUp(_, _) => name == "grow_up"
    case GrowDown(_, _) => name == "grow_down"
    case Opening(_, _) => name == "opening"
  }

  /** The names `init` has a case for. */
  function InitNames(): set<string>
  {
    {"scroll_ltr", "scroll_rtl", "blink", "snow", "breeze", "laser", "fade", "typewriter",
     "bounce", "sparkle", "scroll_up", "scroll_down", "dissolve", "blinds", "wipe",
     "scan_horiz", "scan_vert", "grow_up", "grow_down", "opening"}
  }

  // ---------------------------------------------------------------------
  // init

  /** `width * height` successive draws, each mapped by `f`. */
  method DrawMany(n: nat, host: Host, f: real -> real) returns (xs: seq<real>)
    requires host.Valid()
    ensures |xs| == n
    ensures forall i :: 0 <= i < n ==> xs[i] == f(host.Draw(i))
  {
    xs := [];
    var i := 0;
    while i < n
      invariant 0 <= i <= n && |xs| == i
      invariant forall j :: 0 <= j < i ==> xs[j] == f(host.Draw(j))
    {
      xs := xs + [f(host.Draw(i))];
      i := i + 1;
    }
  }

  /** A sparkle placed by four draws starting at draw `k`. */
  function NewSparkle(width: nat, height: nat, host: Host, k: nat): Sparkle
    requires host.Valid()
  {
    Sparkle(Floor(host.Draw(k) * width as real), Floor(host.Draw(k + 1) * height as real),
            host.Draw(k + 2), 0.05 + host.Draw(k + 3) * 0.1)
  }

  /** `n` sparkles, each placed by the next four draws. */
  method PlaceSparkles(n: nat, width: nat, height: nat, host: Host) returns (sparkles: seq<Sparkle>)
    requires host.Valid()
    ensures |sparkles| == n
    ensures forall i :: 0 <= i < n ==> sparkles[i] == NewSparkle(width, height, host, 4 * i)
  {
    sparkles := [];
    var i := 0;
    while i < n
      invariant 0 <= i <= n && |sparkles| == i
      invariant forall j :: 0 <= j < i ==> sparkles[j] == NewSparkle(width, height, host, 4 * j)
    {
      sparkles := sparkles + [NewSparkle(width, height, host, 4 * i)];
      i := i + 1;
    }
  }

  /** A sparkle lies on the grid with brightness in [0, 1] and speed in [0.05, 0.15). */
  predicate SparkleOk(s: Sparkle, width: nat, height: nat)
  {
    0 <= s.x < width && 0 <= s.y < height && 0.0 <= s.brightness <= 1.0 && 0.05 <= s.speed < 0.15
  }

  /** The state `init` creates for each effect name, `Plain` when it has no case. */
  function Initial(name: string, width: nat, height: nat, host: Host): TextState
    requires host.Valid()
  {
    match name
    case "scroll_ltr" => ScrollLtr(-(width as int))
    case "scroll_rtl" => ScrollRtl(-(width as int))
    case "blink" => Blink(true)
    case "snow" => Snow(seq(width * height, i requires 0 <= i => host.Draw(i) * PI * 2.0))
    case "breeze" => Breeze(seq(width * height, i requires 0 <= i => host.Draw(i) * PI * 2.0))
    case "laser" => Laser(0)
    case "fade" => Fade(0.0, 1)
    case "typewriter" => Typewriter(0, true)
    case "bounce" => Bounce(0, 1)
    case "sparkle" => Sparkles(seq((width * height) / 10, i requires 0 <= i => NewSparkle(width, height, host, 4 * i)))
    case "scroll_up" => ScrollUp(-(height as int))
    case "scroll_down" => ScrollDown(height)
    case "dissolve" => Dissolve(seq(width * height, i requires 0 <= i => host.Draw(i)), 0.0, 1)
    case "blinds" => Blinds(0.0, 1)
    case "wipe" => Wipe(-1, 1)
    case "scan_horiz" => ScanHoriz(-1, false, 1)
    case "scan_vert" => ScanVert(-1, false, 1)
    case "grow_up" => GrowUp(0, 1)
    case "grow_down" => GrowDown(0, 1)
    case "opening" => Opening(0, 1)
    case _ => Plain
  }

  /** init: builds the starting state, drawing the random fields with loops. */
  method Init(name: string, width: nat, height: nat, host: Host) returns (s: TextState)
    requires host.Valid()
    ensures s == Initial(name, width, height, host)
  {
    match name
    case "snow" =>
      var phases := DrawMany(width * height, host, d => d * PI * 2.0);
      s := Snow(phases);
    case "breeze" =>
      var phases := DrawMany(width * height, host, d => d * PI * 2.0);
      s := Breeze(phases);
    case "sparkle" =>
      // Math.floor(width * height * 0.1) is the integer part of a tenth.
      var sparkles := PlaceSparkles((width * height) / 10, width, height, host);
      s := Sparkles(sparkles);
    case "dissolve" =>
      var thresholds := DrawMany(width * height, host, d => d);
      s := Dissolve(thresholds, 0.0, 1);
    case _ => s := Initial(name, width, height, host);
  }

  /** `init` creates the variant of the effect named, and `Plain` exactly for
      the names it has no case for. */
  lemma InitialVariant(name: string, width: nat, height: nat, host: Host)
    requires host.Valid()
    ensures VariantOf(name, Initial(name, width, height, host))
  {
  }

  /** The random fields hold one value per cell; phases lie in [0, 2 PI),
      thresholds in [0, 1). */
  lemma InitialFields(name: string, width: nat, height: nat, host: Host)
    requires host.Valid()
    ensures var s := Initial(name, width, height, host);
      (s.Snow? || s.Breeze?) ==>
        |s.phases| == width * height && forall i :: 0 <= i < |s.phases| ==> 0.0 <= s.phases[i] < 2.0 * PI
    ensures var s := Initial(name, width, height, host);
      s.Dissolve? ==>
        |s.thresholds| == width * height && forall i :: 0 <= i < |s.thresholds| ==> 0.0 <= s.thresholds[i] < 1.0
    ensures var s := Initial(name, width, height, host);
      s.Sparkles? ==> |s.sparkles| == (width * height) / 10
  {
  }

  /** Every sparkle `init` places satisfies the sparkle invariant. */
  lemma InitSparklesOk(width: nat, height: nat, host: Host, k: nat)
    requires host.Valid() && width >= 1 && height >= 1
    ensures SparkleOk(NewSparkle(width, height, host, k), width, height)
  {
    FloorDraw(host.Draw(k), width);
    FloorDraw(host.Draw(k + 1), height);
  }

  // ---------------------------------------------------------------------
  // step: the counters

  /** The scroll source width: `extendedWidth || width`. */
  function SourceWidth(width: nat, extendedWidth: nat): nat
  {
    if extendedWidth == 0 then width else extendedWidth
  }

  /** scroll_ltr: one column left; past the left end of the source it
      restarts at the right edge of the display. */
  function ScrollLtrStep(offset: int, width: nat, extendedWidth: nat): int
  {
    var o := offset - 1;
    if o <= -(SourceWidth(width, extendedWidth) as int) then width else o
  }

  /** scroll_rtl: one column right; at the source width it restarts at
      minus the display width. */
  function ScrollRtlStep(offset: int, width: nat, extendedWidth: nat): int
  {
    var o := offset + 1;
    if o >= SourceWidth(width, extendedWidth) then -(width as int) else o
  }

  /** A counter moved by `direction` and bounced between 0 and `max`: the
      shape shared by bounce, grow_up, grow_down and opening. The result is
      the new value and direction. */
  function Oscillate(value: int, direction: int, max: int): (int, int)
  {
    var v := value + direction;
    if v >= max then (max, -1)
    else if v <= 0 then (0, 1)
    else (v, direction)
  }

  /** A level moved by `direction * delta` and bounced between 0 and 1: the
      shape shared by fade (0.05), dissolve (0.02) and blinds (0.03). */
  function OscillateUnit(level: real, direction: int, delta: real): (real, int)
  {
    var l := level + direction as real * delta;
    if l >= 1.0 then (1.0, -1)
    else if l <= 0.0 then (0.0, 1)
    else (l, direction)
  }

  /** A scan line moved by `direction` that turns round at either edge of
      `[0, limit)`, flipping the revealed flag each time it turns. The
      result is position, flag and direction. */
  function ScanStep(pos: int, revealed: bool, direction: int, limit: int): (int, bool, int)
  {
    var p := pos + direction;
    if p >= limit then (limit - 1, !revealed, -1)
    else if p < 0 then (0, !revealed, 1)
    else (p, revealed, direction)
  }

  /** wipe: the edge moves by `direction`, which turns at width + 2 and at -3
      without clamping the edge. */
  function WipeStep(wipeX: int, direction: int, width: nat): (int, int)
  {
    var x := wipeX + direction;
    if x >= width + 2 then (x, -1)
    else if x <= -3 then (x, 1)
    else (x, direction)
  }

  /** step for every text effect that draws no random numbers. */
  function StepCounters(s: TextState, tick: int, width: nat, height: nat, extendedWidth: nat): TextState
  {
    match s
    case ScrollLtr(o) => ScrollLtr(ScrollLtrStep(o, width, extendedWidth))
    case ScrollRtl(o) => ScrollRtl(ScrollRtlStep(o, width, extendedWidth))
    case Blink(v) => Blink(!v)
    case Laser(p) => if width == 0 then s else Laser(Rem(p + 1, width))
    case Fade(o, d) => var r := OscillateUnit(o, d, 0.05); Fade(r.0, r.1)
    case Typewriter(c, _) =>
      Typewriter(if Rem(tick, 3) == 0 then c + 1 else c, Rem(tick, 10) < 5)
    case Bounce(o, d) =>
      var r := Oscillate(o, d, Max(0, SourceWidth(width, extendedWidth) - width)); Bounce(r.0, r.1)
    case ScrollUp(y) => ScrollUp(if y + 1 > height then -(height as int) else y + 1)
    case ScrollDown(y) => ScrollDown(if y - 1 < -(height as int) then height else y - 1)
    case Dissolve(t, p, d) => var r := OscillateUnit(p, d, 0.02); Dissolve(t, r.0, r.1)
    case Blinds(p, d) => var r := OscillateUnit(p, d, 0.03); Blinds(r.0, r.1)
    case Wipe(x, d) => var r := WipeStep(x, d, width); Wipe(r.0, r.1)
    case ScanHoriz(x, rv, d) => var r := ScanStep(x, rv, d, width); ScanHoriz(r.0, r.1, r.2)
    case ScanVert(y, rv, d) => var r := ScanStep(y, rv, d, height); ScanVert(r.0, r.1, r.2)
    case GrowUp(n, d) => var r := Oscillate(n, d, height); GrowUp(r.0, r.1)
    case GrowDown(n, d) => var r := Oscillate(n, d, height); GrowDown(r.0, r.1)
    case Opening(hw, d) => var r := Oscillate(hw, d, (width + 1) / 2); Opening(r.0, r.1)
    case _ => s
  }

  /** One sparkle's step: it brightens by its speed and, past full
      brightness, restarts dark at a cell placed by draws `k` and `k + 1`. */
  function Twinkled(sp: Sparkle, width: nat, height: nat, host: Host, k: nat): Sparkle
    requires host.Valid()
  {
    if sp.brightness + sp.speed > 1.0 then
      Sparkle(Floor(host.Draw(k) * width as real), Floor(host.Draw(k + 1) * height as real), 0.0, sp.speed)
    else
      sp.(brightness := sp.brightness + sp.speed)
  }

  /** How many of `sparkles` restart on a step; each takes two draws. */
  function Restarts(sparkles: seq<Sparkle>): nat
  {
    if sparkles == [] then 0
    else
      var last := sparkles[|sparkles| - 1];
      Restarts(sparkles[..|sparkles| - 1]) + (if last.brightness + last.speed > 1.0 then 1 else 0)
  }

  /** A step keeps a sparkle's speed; a restarted sparkle is dark and on the
      grid, any other is brightened by its speed. */
  lemma TwinkledOk(sp: Sparkle, width: nat, height: nat, host: Host, k: nat)
    requires host.Valid()
    ensures Twinkled(sp, width, height, host, k).speed == sp.speed
    ensures if sp.brightness + sp.speed > 1.0 then
        Twinkled(sp, width, height, host, k).brightness == 0.0 &&
        (width >= 1 ==> 0 <= Twinkled(sp, width, height, host, k).x < width) &&
        (height >= 1 ==> 0 <= Twinkled(sp, width, height, host, k).y < height)
      else
        Twinkled(sp, width, height, host, k) == sp.(brightness := sp.brightness + sp.speed)
  {
    if width >= 1 { FloorDraw(host.Draw(k), width); }
    if height >= 1 { FloorDraw(host.Draw(k + 1), height); }
  }

  /** The per-sparkle facts over a whole step. */
  lemma TwinkledFacts(sparkles: seq<Sparkle>, r: seq<Sparkle>, width: nat, height: nat, host: Host)
    requires host.Valid() && |r| == |sparkles| && TwinkledPrefix(sparkles, r, width, height, host)
    ensures forall i :: 0 <= i < |r| ==> r[i].speed == sparkles[i].speed
    ensures forall i :: 0 <= i < |r| ==>
      if sparkles[i].brightness + sparkles[i].speed > 1.0 then
        r[i].brightness == 0.0 &&
        (width >= 1 ==> 0 <= r[i].x < width) && (height >= 1 ==> 0 <= r[i].y < height)
      else
        r[i] == sparkles[i].(brightness := sparkles[i].brightness + sparkles[i].speed)
  {
    forall i | 0 <= i < |r|
      ensures r[i].speed == sparkles[i].speed
      ensures if sparkles[i].brightness + sparkles[i].speed > 1.0 then
        r[i].brightness == 0.0 &&
        (width >= 1 ==> 0 <= r[i].x < width) && (height >= 1 ==> 0 <= r[i].y < height)
      else
        r[i] == sparkles[i].(brightness := sparkles[i].brightness + sparkles[i].speed)
    {
      TwinkledOk(sparkles[i], width, height, host, 2 * Restarts(sparkles[..i]));
    }
  }

  /** `r` holds the first sparkles of a step over `sparkles`. */
  ghost predicate TwinkledPrefix(sparkles: seq<Sparkle>, r: seq<Sparkle>, width: nat, height: nat, host: Host)
    requires host.Valid()
  {
    |r| <= |sparkles| &&
    forall j :: 0 <= j < |r| ==> r[j] == Twinkled(sparkles[j], width, height, host, 2 * Restarts(sparkles[..j]))
  }

  /** One more pass of the sparkle loop extends the prefix, and the restart
      count by the new sparkle's restart. */
  lemma TwinkledPrefixNext(sparkles: seq<Sparkle>, r: seq<Sparkle>, width: nat, height: nat, host: Host)
    requires host.Valid() && TwinkledPrefix(sparkles, r, width, height, host) && |r| < |sparkles|
    ensures var i := |r|;
      TwinkledPrefix(sparkles, r + [Twinkled(sparkles[i], width, height, host, 2 * Restarts(sparkles[..i]))],
                     width, height, host)
    ensures var i := |r|; var sp := sparkles[i];
      Restarts(sparkles[..i + 1]) == Restarts(sparkles[..i]) + (if sp.brightness + sp.speed > 1.0 then 1 else 0)
  {
    var i := |r|;
    var n := r + [Twinkled(sparkles[i], width, height, host, 2 * Restarts(sparkles[..i]))];
    forall j | 0 <= j < |n|
      ensures n[j] == Twinkled(sparkles[j], width, height, host, 2 * Restarts(sparkles[..j]))
    {
      if j < i {
        assert n[j] == r[j];
      }
    }
    assert sparkles[..i + 1][..i] == sparkles[..i];
  }

  /** The sparkle loop of step: each sparkle in turn, a restart taking the
      next two draws. */
  method StepSparkles(sparkles: seq<Sparkle>, width: nat, height: nat, host: Host) returns (r: seq<Sparkle>)
    requires host.Valid()
    ensures |r| == |sparkles|
    ensures forall i :: 0 <= i < |r| ==> r[i] == Twinkled(sparkles[i], width, height, host, 2 * Restarts(sparkles[..i]))
    ensures forall i :: 0 <= i < |r| ==> r[i].speed == sparkles[i].speed
    ensures forall i :: 0 <= i < |r| ==>
      if sparkles[i].brightness + sparkles[i].speed > 1.0 then
        r[i].brightness == 0.0 &&
        (width >= 1 ==> 0 <= r[i].x < width) && (height >= 1 ==> 0 <= r[i].y < height)
      else
        r[i] == sparkles[i].(brightness := sparkles[i].brightness + sparkles[i].speed)
  {
    r := [];
    var k: nat := 0;
    var i := 0;
    while i < |sparkles|
      invariant TwinkledPrefix(sparkles, r, width, height, host)
      invariant i == |r| && k == 2 * Restarts(sparkles[..i])
    {
      TwinkledPrefixNext(sparkles, r, width, height, host);
      var sp := sparkles[i];
      r := r + [Twinkled(sp, width, height, host, k)];
      if sp.brightness + sp.speed > 1.0 {
        k := k + 2;
      }
      i := i + 1;
    }
    TwinkledFacts(sparkles, r, width, height, host);
  }

  /** step: the sparkle loop, or the counter update of every other effect. */
  method Step(s: TextState, tick: int, width: nat, height: nat, extendedWidth: nat, host: Host) returns (s': TextState)
    requires host.Valid()
    ensures !s.Sparkles? ==> s' == StepCounters(s, tick, width, height, extendedWidth)
    ensures s.Sparkles? ==> s'.Sparkles? && |s'.sparkles| == |s.sparkles|
    ensures s.Sparkles? ==> forall i :: 0 <= i < |s'.sparkles| ==>
      s'.sparkles[i] == Twinkled(s.sparkles[i], width, height, host, 2 * Restarts(s.sparkles[..i]))
    ensures s.Sparkles? && width >= 1 && height >= 1 &&
            (forall i :: 0 <= i < |s.sparkles| ==> SparkleOk(s.sparkles[i], width, height))
            ==> forall i :: 0 <= i < |s'.sparkles| ==> SparkleOk(s'.sparkles[i], width, height)
  {
    if s.Sparkles? {
      var r := StepSparkles(s.sparkles, width, height, host);
      s' := Sparkles(r);
    } else {
      s' := StepCounters(s, tick, width, height, extendedWidth);
    }
  }

  /** `n` successive steps of a counter effect, the first at tick `tick`. */
  function Run(s: TextState, tick: int, n: nat, width: nat, height: nat, extendedWidth: nat): TextState
  {
    if n == 0 then s
    else StepCounters(Run(s, tick, n - 1, width, height, extendedWidth), tick + n - 1, width, height, extendedWidth)
  }

  predicate Turning(direction: int)
  {
    direction == 1 || direction == -1
  }

  /** The range each counter stays in: scroll offsets within one display or
      source width, levels in [0, 1], bounce within the overflow, the wipe
      edge in [-3, width + 2] turning at either end, scan lines within the
      grid (or one before it), grown rows within the height, the opening
      within half the width. */
  predicate Bounded(s: TextState, width: nat, height: nat, extendedWidth: nat)
  {
    var src := SourceWidth(width, extendedWidth);
    match s
    case ScrollLtr(o) => -Max(src, width) <= o <= width
    case ScrollRtl(o) => -(width as int) <= o < Max(src, 1)
    case Snow(phases) => |phases| == width * height
    case Breeze(phases) => |phases| == width * height
    case Laser(p) => (width == 0 && p == 0) || 0 <= p < width
    case Fade(o, d) => 0.0 <= o <= 1.0 && Turning(d)
    case Typewriter(c, _) => c >= 0
    case Bounce(o, d) => 0 <= o <= Max(0, src - width) && Turning(d)
    case ScrollUp(y) => -(height as int) <= y <= height
    case ScrollDown(y) => -(height as int) <= y <= height
    case Dissolve(t, p, d) => |t| == width * height && 0.0 <= p <= 1.0 && Turning(d)
    case Blinds(p, d) => 0.0 <= p <= 1.0 && Turning(d)
    case Wipe(x, d) => -3 <= x <= width + 2 && Turning(d) && (x == width + 2 ==> d == -1) && (x == -3 ==> d == 1)
    case ScanHoriz(x, _, d) => -1 <= x < Max(width, 1) && Turning(d)
    case ScanVert(y, _, d) => -1 <= y < Max(height, 1) && Turning(d)
    case GrowUp(n, d) => 0 <= n <= height && Turning(d)
    case GrowDown(n, d) => 0 <= n <= height && Turning(d)
    case Opening(hw, d) => 0 <= hw <= (width + 1) / 2 && Turning(d)
    case _ => true
  }

  /** Every state `init` creates is within its range. */
  lemma InitialBounded(name: string, width: nat, height: nat, extendedWidth: nat, host: Host)
    requires host.Valid()
    ensures Bounded(Initial(name, width, height, host), width, height, extendedWidth)
  {
    if name == "scroll_ltr" || name == "scroll_rtl" || name == "blink" || name == "snow" ||
        name == "breeze" || name == "laser" || name == "fade" {
      InitialBoundedMoving(name, width, height, extendedWidth, host);
    } else if name == "typewriter" || name == "bounce" || name == "sparkle" || name == "scroll_up" ||
        name == "scroll_down" || name == "dissolve" || name == "blinds" {
      InitialBoundedTimed(name, width, height, extendedWidth, host);
    } else if name == "wipe" || name == "scan_horiz" || name == "scan_vert" || name == "grow_up" ||
        name == "grow_down" || name == "opening" {
      InitialBoundedSweeping(name, width, height, extendedWidth, host);
    }
  }

  lemma InitialBoundedMoving(name: string, width: nat, height: nat, extendedWidth: nat, host: Host)
    requires host.Valid() && (name == "scroll_ltr" || name == "scroll_rtl" || name == "blink" ||
        name == "snow" || name == "breeze" || name == "laser" || name == "fade")
    ensures Bounded(Initial(name, width, height, host), width, height, extendedWidth)
  {
  }

  lemma InitialBoundedTimed(name: string, width: nat, height: nat, extendedWidth: nat, host: Host)
    requires host.Valid() && (name == "typewriter" || name == "bounce" || name == "sparkle" ||
        name == "scroll_up" || name == "scroll_down" || name == "dissolve" || name == "blinds")
    ensures Bounded(Initial(name, width, height, host), width, height, extendedWidth)
  {
  }

  lemma InitialBoundedSweeping(name: string, width: nat, height: nat, extendedWidth: nat, host: Host)
    requires host.Valid() && (name == "wipe" || name == "scan_horiz" || name == "scan_vert" ||
        name == "grow_up" || name == "grow_down" || name == "opening")
    ensures Bounded(Initial(name, width, height, host), width, height, extendedWidth)
  {
  }

  /** One step keeps every counter within its range. */
  lemma StepBounded(s: TextState, tick: int, width: nat, height: nat, extendedWidth: nat)
    requires Bounded(s, width, height, extendedWidth)
    ensures Bounded(StepCounters(s, tick, width, height, extendedWidth), width, height, extendedWidth)
  {
    match s {
      case Plain =>
      case ScrollLtr(_) =>
      case ScrollRtl(_) =>
      case Blink(_) =>
      case Snow(_) =>
      case Breeze(_) =>
      case Laser(_) =>
      case Fade(_, _) =>
      case Typewriter(_, _) =>
      case Bounce(_, _) =>
      case Sparkles(_) =>
      case ScrollUp(_) =>
      case ScrollDown(_) =>
      case Dissolve(_, _, _) =>
      case Blinds(_, _) =>
      case Wipe(_, _) =>
      case ScanHoriz(_, _, _) =>
      case ScanVert(_, _, _) =>
      case GrowUp(_, _) =>
      case GrowDown(_, _) =>
      case Opening(_, _) =>
    }
  }

  /** Any number of steps from `init` keeps every counter within its range. */
  lemma {:induction false} RunBounded(name: string, tick: int, n: nat, width: nat, height: nat, extendedWidth: nat, host: Host)
    requires host.Valid()
    ensures Bounded(Run(Initial(name, width, height, host), tick, n, width, height, extendedWidth), width, height, extendedWidth)
  {
    if n == 0 {
      InitialBounded(name, width, height, extendedWidth, host);
    } else {
      RunBounded(name, tick, n - 1, width, height, extendedWidth, host);
      StepBounded(Run(Initial(name, width, height, host), tick, n - 1, width, height, extendedWidth),
                  tick + n - 1, width, height, extendedWidth);
    }
  }

  /** scroll_ltr wraps: after a step the offset lies in (-srcWidth, width],
      and it is the display width exactly when the text has left the source. */
  lemma ScrollLtrWraps(offset: int, width: nat, extendedWidth: nat)
    requires SourceWidth(width, extendedWidth) >= 1 && offset <= width + 1
    ensures var o := ScrollLtrStep(offset, width, extendedWidth);
      -(SourceWidth(width, extendedWidth) as int) < o <= width &&
      (o == width <==> offset - 1 <= -(SourceWidth(width, extendedWidth) as int) || offset == width + 1)
  {
  }

  /** scroll_rtl wraps: after a step the offset lies in [-width, srcWidth). */
  lemma ScrollRtlWraps(offset: int, width: nat, extendedWidth: nat)
    requires SourceWidth(width, extendedWidth) >= 1 && offset >= -(width as int) - 1
    ensures var o := ScrollRtlStep(offset, width, extendedWidth);
      -(width as int) <= o < SourceWidth(width, extendedWidth) &&
      (o == -(width as int) <==> offset + 1 >= SourceWidth(width, extendedWidth) || offset == -(width as int) - 1)
  {
  }

  /** Oscillate turns down exactly at the top and up exactly at the bottom. */
  lemma OscillateTurns(value: int, direction: int, max: int)
    requires max > 0
    ensures var r := Oscillate(value, direction, max);
      0 <= r.0 <= max &&
      (r.0 == max <==> r.1 == -1 && value + direction >= max) &&
      (r.0 == 0 <==> value + direction <= 0) &&
      (0 < r.0 < max ==> r == (value + direction, direction))
  {
  }

  /** The typewriter reveals one more character on every third tick and no
      other time; its cursor shows for the first five ticks of every ten. */
  lemma TypewriterPace(charIndex: int, cursor: bool, tick: int, width: nat, height: nat, extendedWidth: nat)
    requires tick >= 0
    ensures var s := StepCounters(Typewriter(charIndex, cursor), tick, width, height, extendedWidth);
      s.charIndex == (if tick % 3 == 0 then charIndex + 1 else charIndex) &&
      (s.cursorVisible <==> tick % 10 < 5)
  {
  }

  /** Over `n` steps from tick 0 the typewriter reveals one character per
      started group of three ticks. */
  lemma {:induction false} TypewriterCount(n: nat, width: nat, height: nat, extendedWidth: nat)
    ensures var s := Run(Typewriter(0, true), 0, n, width, height, extendedWidth);
      s.Typewriter? && s.charIndex == (n + 2) / 3
  {
    if n > 0 {
      TypewriterCount(n - 1, width, height, extendedWidth);
      var prev := Run(Typewriter(0, true), 0, n - 1, width, height, extendedWidth);
      TypewriterPace(prev.charIndex, prev.cursorVisible, n - 1, width, height, extendedWidth);
    }
  }

  // ---------------------------------------------------------------------
  // render

  /** `pixels[i] || '#111'`: a missing or empty entry reads as unlit. */
  function CellAt(pixels: seq<string>, i: int): string
  {
    if 0 <= i < |pixels| && pixels[i] != "" then pixels[i] else "#111"
  }

  /** The source column a scrolled cell samples: `x - offset` brought into
      `[0, srcWidth)`. */
  function SourceColumn(x: int, offset: int, srcWidth: nat): int
    requires srcWidth > 0
  {
    (x - offset) % srcWidth
  }

  /** Adding or removing one period leaves the remainder unchanged. */
  lemma ShiftPeriod(r: int, n: nat)
    requires n > 0
    ensures (r + n) % n == r % n && (r - n) % n == r % n
  {
    Grid.DivModUnique(r + n, n, r / n + 1, r % n);
    Grid.DivModUnique(r - n, n, r / n - 1, r % n);
  }

  /** The two `while` loops that bring `sourceX` into `[0, srcWidth)`. */
  method WrapColumn(v: int, srcWidth: nat) returns (r: int)
    requires srcWidth > 0
    ensures 0 <= r < srcWidth
    ensures r % srcWidth == v % srcWidth
  {
    r := v;
    while r < 0
      invariant r % srcWidth == v % srcWidth
      decreases -r
    {
      ShiftPeriod(r, srcWidth);
      r := r + srcWidth;
    }
    while r >= srcWidth
      invariant r >= 0
      invariant r % srcWidth == v % srcWidth
      decreases r
    {
      ShiftPeriod(r, srcWidth);
      r := r - srcWidth;
    }
  }

  /** A horizontally scrolled cell: column `x - offset` of the source, wrapped. */
  function Scrolled(extendedPixels: seq<string>, srcWidth: nat, offset: int, x: int, y: int): string
  {
    if srcWidth == 0 then "#111"
    else CellAt(extendedPixels, y * srcWidth + SourceColumn(x, offset, srcWidth))
  }

  /** A vertically scrolled cell: row `y + yOffset` of the grid, unlit off the grid. */
  function Shifted(pixels: seq<string>, width: nat, height: nat, yOffset: int, x: int, y: int): string
  {
    var sy := y + yOffset;
    if 0 <= sy < height then CellAt(pixels, sy * width + x) else "#111"
  }

  /** The colour name a cell samples before modulation. */
  function SampleColor(s: TextState, pixels: seq<string>, extendedPixels: seq<string>, extendedWidth: nat,
                       width: nat, height: nat, x: int, y: int): string
  {
    var srcWidth := SourceWidth(width, extendedWidth);
    var own := CellAt(pixels, y * width + x);
    match s
    case ScrollLtr(o) => Scrolled(extendedPixels, srcWidth, o, x, y)
    case ScrollRtl(o) => Scrolled(extendedPixels, srcWidth, o, x, y)
    case Bounce(o, _) => Scrolled(extendedPixels, srcWidth, o, x, y)
    case Typewriter(c, cursor) =>
      var maxX := c * 6;
      if x < maxX then own else if x == maxX && cursor then "#ffffff" else "#111"
    case ScrollUp(yo) => Shifted(pixels, width, height, yo, x, y)
    case ScrollDown(yo) => Shifted(pixels, width, height, yo, x, y)
    case Dissolve(t, p, _) =>
      var idx := y * width + x;
      if 0 <= idx < |t| && t[idx] < p then own else "#111"
    case Blinds(p, _) =>
      if Rem(x, 4) < Floor(p * 4.0) then own else "#111"
    case Wipe(wx, d) =>
      if d > 0 then
        (if x <= wx then own else if x == wx + 1 || x == wx + 2 then "#ffffff" else "#111")
      else
        (if x < wx then own else if x == wx || x == wx + 1 then "#ffffff" else "#111")
    case ScanHoriz(sx, rv, d) =>
      var revealedHere := if d > 0 then (rv || x <= sx) else (!rv || x <= sx);
      if x == sx then "#ffffff" else if revealedHere then own else "#111"
    case ScanVert(sy, rv, d) =>
      var revealedHere := if d > 0 then (rv || y <= sy) else (!rv || y <= sy);
      if y == sy then "#ffffff" else if revealedHere then own else "#111"
    case GrowUp(n, _) => if y >= height - n then own else "#111"
    case GrowDown(n, _) => if y < n then own else "#111"
    case Opening(hw, _) =>
      var center := width / 2;
      if center - hw <= x <= center + hw then own else "#111"
    case _ => own
  }

  /** The per-effect modulation of a lit cell (unlit cells pass unchanged). */
  function Modulate(s: TextState, tick: int, width: nat, x: int, y: int, c: Rgb, sin: real -> real): Rgb
  {
    if !IsLit(c) then c
    else match s
      case Blink(visible) => if visible then c else Unlit
      case Snow(phases) =>
        var idx := y * width + x;
        var phase := if 0 <= idx < |phases| then phases[idx] else 0.0;
        c.Scale(0.3 + 0.7 * AbsR(sin(phase + tick as real * 0.3)))
      case Breeze(phases) =>
        var idx := y * width + x;
        var phase := if 0 <= idx < |phases| then phases[idx] else 0.0;
        c.Scale(0.4 + 0.6 * AbsR(sin(phase + tick as real * 0.15 + x as real * 0.2)))
      case Laser(pos) => c.Scale(if AbsR((x - pos) as real) < 3.0 then 1.0 else 0.3)
      case Fade(opacity, _) => c.Scale(if opacity == 0.0 then 1.0 else opacity)
      case _ => c
  }

  /** The sparkle overlay: every sparkle on the cell adds `sin(brightness * PI) * 200`
      to each channel, capped at 255, in list order. */
  function Glow(sparkles: seq<Sparkle>, x: int, y: int, c: Rgb, sin: real -> real): Rgb
  {
    if sparkles == [] then c
    else
      var last := sparkles[|sparkles| - 1];
      var before := Glow(sparkles[..|sparkles| - 1], x, y, c, sin);
      if last.x == x && last.y == y then
        var add := sin(last.brightness * PI) * 200.0;
        Rgb(MinR(255.0, before.r + add), MinR(255.0, before.g + add), MinR(255.0, before.b + add))
      else before
  }

  /** The colour render gives cell (x, y). */
  function Cell(s: TextState, tick: int, pixels: seq<string>, extendedPixels: seq<string>, extendedWidth: nat,
                width: nat, height: nat, sin: real -> real, x: int, y: int): Rgb
  {
    var c := Modulate(s, tick, width, x, y, HexToRgb(SampleColor(s, pixels, extendedPixels, extendedWidth, width, height, x, y)), sin);
    if s.Sparkles? then Glow(s.sparkles, x, y, c, sin) else c
  }

  /** The reveal effects at their fully revealed end. */
  predicate FullyRevealed(s: TextState, width: nat, height: nat)
  {
    match s
    case Dissolve(t, p, _) => p == 1.0 && |t| == width * height && forall i :: 0 <= i < |t| ==> 0.0 <= t[i] < 1.0
    case Blinds(p, _) => p == 1.0
    case GrowUp(n, _) => n == height
    case GrowDown(n, _) => n == height
    case Opening(hw, _) => hw == (width + 1) / 2
    case Wipe(x, d) => d > 0 && x >= width - 1
    case _ => false
  }

  /** The reveal effects at their fully hidden end. */
  predicate FullyHidden(s: TextState)
  {
    match s
    case Dissolve(t, p, _) => p == 0.0 && forall i :: 0 <= i < |t| ==> 0.0 <= t[i]
    case Blinds(p, _) => p == 0.0
    case GrowUp(n, _) => n == 0
    case GrowDown(n, _) => n == 0
    case _ => false
  }

  /** At the revealed end every cell of the grid shows the text's own colour. */
  lemma FullRevealShowsText(s: TextState, pixels: seq<string>, extendedPixels: seq<string>, extendedWidth: nat,
                            width: nat, height: nat, x: int, y: int)
    requires FullyRevealed(s, width, height) && 0 <= x < width && 0 <= y < height
    ensures SampleColor(s, pixels, extendedPixels, extendedWidth, width, height, x, y) == CellAt(pixels, y * width + x)
  {
    if s.Dissolve? {
      Grid.CellIndex(width, height, x, y);
    }
  }

  /** At the hidden end every cell of the grid is unlit. */
  lemma FullHideShowsNothing(s: TextState, pixels: seq<string>, extendedPixels: seq<string>, extendedWidth: nat,
                             width: nat, height: nat, x: int, y: int)
    requires FullyHidden(s) && 0 <= x < width && 0 <= y < height
    ensures SampleColor(s, pixels, extendedPixels, extendedWidth, width, height, x, y) == "#111"
  {
  }

  /** A scrolled cell samples the source column congruent to `x - offset`,
      inside the source width. */
  lemma ScrollSamplesSource(extendedPixels: seq<string>, srcWidth: nat, offset: int, x: int, y: int)
    requires srcWidth > 0
    ensures var c := SourceColumn(x, offset, srcWidth);
      0 <= c < srcWidth && (x - offset - c) % srcWidth == 0 &&
      Scrolled(extendedPixels, srcWidth, offset, x, y) == CellAt(extendedPixels, y * srcWidth + c)
  {
    var c := SourceColumn(x, offset, srcWidth);
    Grid.DivModUnique(x - offset - c, srcWidth, (x - offset) / srcWidth, 0);
  }

  /** Modulation never touches an unlit cell, and dims or hides a lit one
      without raising any channel when its factor is at most one. */
  lemma ModulateKeepsUnlit(s: TextState, tick: int, width: nat, x: int, y: int, c: Rgb, sin: real -> real)
    requires !IsLit(c)
    ensures Modulate(s, tick, width, x, y, c, sin) == c
  {
  }

  /** Laser, fade and blink never brighten a byte-range colour. */
  lemma ModulateDims(s: TextState, tick: int, width: nat, x: int, y: int, c: Rgb, sin: real -> real)
    requires s.Laser? || s.Blink? || (s.Fade? && 0.0 <= s.opacity <= 1.0)
    requires c.InByteRange()
    ensures var m := Modulate(s, tick, width, x, y, c, sin);
      m.InByteRange() && (IsLit(c) && !s.Blink? ==> m.r <= c.r && m.g <= c.g && m.b <= c.b)
  {
    if IsLit(c) {
      match s
      case Laser(pos) => ScaleDims(c, if AbsR((x - pos) as real) < 3.0 then 1.0 else 0.3);
      case Fade(opacity, _) => ScaleDims(c, if opacity == 0.0 then 1.0 else opacity);
      case Blink(_) =>
    }
  }

  /** render: every cell of the display written once, with the colour `Cell` gives it. */
  method Render(surface: LedSurface, s: TextState, tick: int, pixels: seq<string>, extendedPixels: seq<string>,
                extendedWidth: nat, sin: real -> real)
    requires surface.Valid()
    modifies surface`buffer
    ensures surface.Valid()
    ensures forall j :: 0 <= j < |surface.buffer| ==>
      surface.buffer[j] == Cell(s, tick, pixels, extendedPixels, extendedWidth, surface.width, surface.height, sin,
                                j % surface.width, j / surface.width)
  {
    var w, h := surface.width, surface.height;
    surface.PaintAll((x, y) => Cell(s, tick, pixels, extendedPixels, extendedWidth, w, h, sin, x, y));
  }
}
