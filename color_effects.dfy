// Colour effects (src/core/effects/color-effects.ts): effects that keep the
// text's shape and recolour its lit cells.
module ColorEffects {
  import opened Types
  import opened JsMath
  import opened Utils
  import opened Surface

  /** The fields each colour effect keeps in its state record; `NoColor` for
      names this module has no case for. */
  datatype ColorState =
    | NoColor
    | ColorCycle(hue: real)
    | RainbowText(offset: real)
    | Neon(glowIntensity: real, direction: int, baseColor: string)

  /** init: the hue and offset start at 0; neon starts dark, rising, with the
      foreground colour option (or magenta) as its base. */
  function Init(name: string, options: Options): (s: ColorState)
    ensures name == "color_cycle" <==> s.ColorCycle?
    ensures name == "rainbow_text" <==> s.RainbowText?
    ensures name == "neon" <==> s.Neon?
    ensures s.Neon? ==> s.baseColor != "" && (options.fgColor.Some? && options.fgColor.value != "" ==> s.baseColor == options.fgColor.value)
  {
    match name
    case "color_cycle" => ColorCycle(0.0)
    case "rainbow_text" => RainbowText(0.0)
    case "neon" =>
      var fg := options.fgColor.GetOr("");
      Neon(0.0, 1, if fg == "" then "#ff00ff" else fg)
    case _ => NoColor
  }

  /** step: hue and offset advance modulo 1; neon's glow moves by 0.05 and
      bounces between 0.3 and 1. */
  function Step(s: ColorState): ColorState
  {
    match s
    case NoColor => s
    case ColorCycle(h) => ColorCycle(Frac(h + 0.01))
    case RainbowText(o) => RainbowText(Frac(o + 0.02))
    case Neon(g, d, base) =>
      var v := g + d as real * 0.05;
      if v >= 1.0 then Neon(1.0, -1, base)
      else if v <= 0.3 then Neon(0.3, 1, base)
      else Neon(v, d, base)
  }

  /** The range each colour state stays in. */
  predicate Bounded(s: ColorState)
  {
    match s
    case NoColor => true
    case ColorCycle(h) => 0.0 <= h < 1.0
    case RainbowText(o) => 0.0 <= o < 1.0
    case Neon(g, d, base) => (g == 0.0 || 0.3 <= g <= 1.0) && (d == 1 || d == -1) && base != ""
  }

  /** `n` successive steps. */
  function Run(s: ColorState, n: nat): ColorState
  {
    if n == 0 then s else Step(Run(s, n - 1))
  }

  /** One step keeps every colour state in range; a neon glow is in [0.3, 1]
      after any step, and turns exactly at the two ends. */
  lemma StepBounded(s: ColorState)
    requires Bounded(s)
    ensures Bounded(Step(s))
    ensures s.Neon? ==> 0.3 <= Step(s).glowIntensity <= 1.0
    ensures s.Neon? ==>
      (Step(s).glowIntensity == 1.0 <==> s.glowIntensity + s.direction as real * 0.05 >= 1.0) &&
      (Step(s).direction != s.direction <==>
         (s.glowIntensity + s.direction as real * 0.05 >= 1.0 && s.direction == 1) ||
         (s.glowIntensity + s.direction as real * 0.05 <= 0.3 && s.direction == -1))
  {
  }

  /** Every state reached from `init` by any number of steps is in range. */
  lemma {:induction false} RunBounded(name: string, options: Options, n: nat)
    ensures Bounded(Run(Init(name, options), n))
  {
    if n > 0 {
      RunBounded(name, options, n - 1);
      StepBounded(Run(Init(name, options), n - 1));
    }
  }

  /** The hue colour of color_cycle and rainbow_text, dimmed by the cell's
      own brightness (r + g + b) / 765. */
  function Tinted(hue: real, c: Rgb): Rgb
  {
    HsvToRgb(hue, 1.0, 0.8).Scale((c.r + c.g + c.b) / (3.0 * 255.0))
  }

  /** One neon channel: the base channel scaled by the glow, mixed towards
      white above 0.8. */
  function NeonChannel(v: real, intensity: real): real
  {
    if intensity > 0.8 then WhiteMix(v * intensity, (intensity - 0.8) * 5.0) else v * intensity
  }

  /** A channel moved 30% of `whiteMix` of the way towards white. */
  function WhiteMix(c: real, whiteMix: real): real
  {
    c + (255.0 - c) * whiteMix * 0.3
  }

  /** The neon colour of a base colour at a glow intensity. */
  function NeonColor(base: Rgb, intensity: real): Rgb
  {
    Rgb(NeonChannel(base.r, intensity), NeonChannel(base.g, intensity), NeonChannel(base.b, intensity))
  }

  /** A lit cell's new colour under each effect. */
  function Recolor(s: ColorState, c: Rgb, width: nat, x: int): Rgb
  {
    match s
    case NoColor => c
    case ColorCycle(h) => Tinted(h, c)
    // The render loop never reaches a cell when the width is 0.
    case RainbowText(o) => if width == 0 then c else Tinted(Frac(o + x as real / width as real), c)
    case Neon(g, _, base) =>
      NeonColor(HexToRgb(if base == "" then "#ff00ff" else base), if g == 0.0 then 0.5 else g)
  }

  /** The colour render gives cell (x, y): the parsed text colour, recoloured
      only when lit. */
  function Cell(s: ColorState, pixels: seq<string>, width: nat, x: int, y: int): Rgb
  {
    var i := y * width + x;
    var c := HexToRgb(if 0 <= i < |pixels| && pixels[i] != "" then pixels[i] else "#111");
    if IsLit(c) then Recolor(s, c, width, x) else c
  }

  /** render: every cell of the display written once with its `Cell` colour. */
  method Render(surface: LedSurface, s: ColorState, pixels: seq<string>)
    requires surface.Valid()
    modifies surface`buffer
    ensures surface.Valid()
    ensures forall j :: 0 <= j < |surface.buffer| ==>
      surface.buffer[j] == Cell(s, pixels, surface.width, j % surface.width, j / surface.width)
  {
    var w := surface.width;
    surface.PaintAll((x, y) => Cell(s, pixels, w, x, y));
  }

  /** Unlit cells keep their parsed colour whatever the effect. */
  lemma UnlitUnchanged(s: ColorState, pixels: seq<string>, width: nat, x: int, y: int)
    requires 0 <= y * width + x < |pixels| && !IsLit(HexToRgb(pixels[y * width + x]))
    ensures Cell(s, pixels, width, x, y) == HexToRgb(if pixels[y * width + x] != "" then pixels[y * width + x] else "#111")
  {
  }

  lemma BrightnessInUnit(r: real, g: real, b: real)
    requires Rgb(r, g, b).InByteRange()
    ensures 0.0 <= (r + g + b) / (3.0 * 255.0) <= 1.0
  {
  }

  /** A tint of a byte-range colour with a non-negative hue stays in range. */
  lemma TintedInRange(hue: real, c: Rgb)
    requires 0.0 <= hue && c.InByteRange()
    ensures Tinted(hue, c).InByteRange()
  {
    HsvInRange(hue, 1.0, 0.8);
    match c {
      case Rgb(r, g, b) =>
        BrightnessInUnit(r, g, b);
        ScaleDims(HsvToRgb(hue, 1.0, 0.8), (r + g + b) / (3.0 * 255.0));
    }
  }

  /** Mixing towards white keeps a byte value a byte value and never darkens it. */
  lemma WhiteMixInRange(c: real, whiteMix: real)
    requires 0.0 <= c <= 255.0 && 0.0 <= whiteMix <= 1.0
    ensures c <= WhiteMix(c, whiteMix) <= 255.0
  {
    ScaleReal(255.0 - c, whiteMix);
  }

  /** A neon channel of a byte value at a glow in [0, 1] is a byte value no
      darker than the scaled base channel. */
  lemma NeonChannelInRange(v: real, intensity: real)
    requires 0.0 <= v <= 255.0 && 0.0 <= intensity <= 1.0
    ensures v * intensity <= NeonChannel(v, intensity) <= 255.0
    ensures 0.0 <= NeonChannel(v, intensity)
  {
    ScaleReal(v, intensity);
    if intensity > 0.8 {
      WhiteMixInRange(v * intensity, (intensity - 0.8) * 5.0);
    }
  }

  /** The neon colour of a byte-range base at a glow in [0, 1] stays in range,
      and the white mix only ever brightens the scaled base. */
  lemma NeonInRange(base: Rgb, intensity: real)
    requires base.InByteRange() && 0.0 <= intensity <= 1.0
    ensures NeonColor(base, intensity).InByteRange()
    ensures var n := NeonColor(base, intensity);
      base.r * intensity <= n.r && base.g * intensity <= n.g && base.b * intensity <= n.b
  {
    NeonChannelInRange(base.r, intensity);
    NeonChannelInRange(base.g, intensity);
    NeonChannelInRange(base.b, intensity);
  }

  /** Every recolouring of a byte-range colour from an in-range state stays in range. */
  lemma RecolorInRange(s: ColorState, c: Rgb, width: nat, x: int)
    requires Bounded(s) && c.InByteRange() && 0 <= x
    ensures Recolor(s, c, width, x).InByteRange()
  {
    match s
    case NoColor =>
    case ColorCycle(h) => TintedInRange(h, c);
    case RainbowText(o) =>
      if width > 0 {
        assert x as real / width as real >= 0.0;
        TintedInRange(Frac(o + x as real / width as real), c);
      }
    case Neon(g, _, base) =>
      NeonInRange(HexToRgb(if base == "" then "#ff00ff" else base), if g == 0.0 then 0.5 else g);
  }

  /** From any in-range state, render writes only byte-range colours. */
  lemma CellInRange(s: ColorState, pixels: seq<string>, width: nat, x: int, y: int)
    requires Bounded(s) && 0 <= x
    ensures Cell(s, pixels, width, x, y).InByteRange()
  {
    var i := y * width + x;
    var c := HexToRgb(if 0 <= i < |pixels| && pixels[i] != "" then pixels[i] else "#111");
    if IsLit(c) {
      RecolorInRange(s, c, width, x);
    }
  }
}
