// The default backend of src/core/renderers/imagedata-renderer.ts: the
// frame is an RGBA byte image of (width * scale) by (height * scale) canvas
// pixels. A boolean template marks which pixels of an LED's scale-by-scale
// block belong to its rounded square; flush copies each LED's rounded,
// clamped colour into the template's pixels and the background colour
// (10, 10, 10) into the rest.
module BitmapRenderer {
  import opened Types
  import opened JsMath
  import opened Surface
  import opened RenderLoop
  import opened PixelGeometry
  import Grid
  import Effects
  import TextEffects

  // ---------------------------------------------------------------------
  // The pixel template

  /** Whether corner offset (dx, dy) lies within the corner circle. */
  predicate InCircle(dx: int, dy: int, radius: int)
  {
    dx * dx + dy * dy <= radius * radius
  }

  /** _createPixelTemplate's test for sub-pixel (px, py) of a block: inside
      the lit square, and inside the corner circle when in a corner. */
  predicate Inside(scale: nat, pixelGap: real, px: int, py: int)
  {
    var size := PixelSize(scale, pixelGap);
    var r := CornerRadius(scale);
    px < size && py < size &&
    if px < r && py < r then InCircle(r - px, r - py, r)
    else if px >= size - r && py < r then InCircle(px - (size - r - 1), r - py, r)
    else if px < r && py >= size - r then InCircle(r - px, py - (size - r - 1), r)
    else if px >= size - r && py >= size - r then InCircle(px - (size - r - 1), py - (size - r - 1), r)
    else true
  }

  /** The template entry pushed i-th: sub-pixel (i % scale, i / scale). */
  predicate TemplateOn(scale: nat, pixelGap: real, i: int)
    requires scale > 0
  {
    Inside(scale, pixelGap, i % scale, i / scale)
  }

  /** A template as _createPixelTemplate builds it: scale * scale entries,
      entry i set exactly when TemplateOn says. */
  predicate IsTemplate(t: seq<bool>, scale: nat, pixelGap: real)
  {
    scale > 0 && |t| == scale * scale && forall i :: 0 <= i < |t| ==> t[i] == TemplateOn(scale, pixelGap, i)
  }

  /** _createPixelTemplate: the test for every sub-pixel, row by row. */
  method CreatePixelTemplate(scale: nat, pixelGap: real) returns (t: seq<bool>)
    ensures |t| == scale * scale
    ensures scale > 0 ==> forall i :: 0 <= i < |t| ==> t[i] == TemplateOn(scale, pixelGap, i)
  {
    t := [];
    var py := 0;
    while py < scale
      invariant 0 <= py <= scale && |t| == py * scale
      invariant scale > 0 ==> forall i :: 0 <= i < |t| ==> t[i] == TemplateOn(scale, pixelGap, i)
    {
      var px := 0;
      while px < scale
        invariant 0 <= px <= scale && |t| == py * scale + px
        invariant scale > 0 ==> forall i :: 0 <= i < |t| ==> t[i] == TemplateOn(scale, pixelGap, i)
      {
        Grid.DivModUnique(py * scale + px, scale, py, px);
        t := t + [Inside(scale, pixelGap, px, py)];
        px := px + 1;
      }
      Grid.NextRow(py, scale);
      py := py + 1;
    }
  }

  /** Everything right of or below the lit square is gap. */
  lemma GapIsDark(scale: nat, pixelGap: real, px: int, py: int)
    requires px >= PixelSize(scale, pixelGap) || py >= PixelSize(scale, pixelGap)
    ensures !Inside(scale, pixelGap, px, py)
  {
  }

  /** The very corner pixel of the square is cut off by the rounding. */
  lemma CornerIsDark(scale: nat, pixelGap: real)
    ensures !Inside(scale, pixelGap, 0, 0)
  {
    var r := CornerRadius(scale);
    assert r * r + r * r > r * r;
  }

  /** Away from the corners the whole square is lit. */
  lemma CentreIsLit(scale: nat, pixelGap: real, px: int, py: int)
    requires var size, r := PixelSize(scale, pixelGap), CornerRadius(scale);
      r <= px < size - r && r <= py < size - r
    ensures Inside(scale, pixelGap, px, py)
  {
  }

  /** A square at least two radii wide is mirror-symmetric left to right:
      the right-hand corners are the left-hand ones reflected. */
  lemma TemplateMirror(scale: nat, pixelGap: real, px: int, py: int)
    requires 2 * CornerRadius(scale) <= PixelSize(scale, pixelGap)
    requires 0 <= px < PixelSize(scale, pixelGap)
    ensures Inside(scale, pixelGap, px, py) == Inside(scale, pixelGap, PixelSize(scale, pixelGap) - 1 - px, py)
  {
  }

  // ---------------------------------------------------------------------
  // Canvas pixels and the LEDs they belong to

  /** The number of canvas pixels of a display. */
  function CanvasPixels(width: nat, height: nat, scale: nat): nat
  {
    (width * scale) * (height * scale)
  }

  /** The LED canvas pixel p belongs to, as a buffer index. */
  function LedOf(width: nat, scale: nat, p: nat): int
    requires width > 0 && scale > 0
  {
    var cw := width * scale;
    ((p / cw) / scale) * width + (p % cw) / scale
  }

  /** The position of canvas pixel p in its LED's block, as a template index. */
  function SubOf(width: nat, scale: nat, p: nat): int
    requires width > 0 && scale > 0
  {
    var cw := width * scale;
    ((p / cw) % scale) * scale + (p % cw) % scale
  }

  /** Sub-pixel (px, py) of LED (ledX, ledY) is canvas pixel
      (ledY * scale + py) * (width * scale) + ledX * scale + px. */
  lemma Decompose(width: nat, height: nat, scale: nat, ledX: int, ledY: int, px: int, py: int)
    requires 0 <= ledX < width && 0 <= ledY < height && 0 <= px < scale && 0 <= py < scale
    ensures var p := (ledY * scale + py) * (width * scale) + ledX * scale + px;
      0 <= p < CanvasPixels(width, height, scale) &&
      LedOf(width, scale, p) == ledY * width + ledX && SubOf(width, scale, p) == py * scale + px
  {
    var cw, ch := width * scale, height * scale;
    var cx, cy := ledX * scale + px, ledY * scale + py;
    Grid.CellIndex(scale, width, px, ledX);
    Grid.CellIndex(scale, height, py, ledY);
    assert scale * width == cw && scale * height == ch;
    Grid.CellIndex(cw, ch, cx, cy);
  }

  /** Each canvas pixel maps to an LED of the display and a template entry. */
  lemma Bounds(width: nat, height: nat, scale: nat, p: nat)
    requires width > 0 && scale > 0 && p < CanvasPixels(width, height, scale)
    ensures 0 <= LedOf(width, scale, p) < width * height && 0 <= SubOf(width, scale, p) < scale * scale
  {
    var cw, ch := width * scale, height * scale;
    Grid.IndexCell(cw, ch, p);
    var cx, cy := p % cw, p / cw;
    assert cx < scale * width;
    assert cy < scale * height;
    Grid.IndexCell(scale, width, cx);
    Grid.IndexCell(scale, height, cy);
    Grid.CellIndex(width, height, cx / scale, cy / scale);
    Grid.CellIndex(scale, scale, cx % scale, cy % scale);
  }

  /** A canvas pixel is fixed by its LED and its place in the LED's block. */
  lemma Injective(width: nat, scale: nat, p: nat, q: nat)
    requires width > 0 && scale > 0
    requires LedOf(width, scale, p) == LedOf(width, scale, q) && SubOf(width, scale, p) == SubOf(width, scale, q)
    ensures p == q
  {
    var cw := width * scale;
    Grid.MulPos(width, scale);
    var lp, sp := LedCoordinates(width, scale, p);
    var lq, sq := LedCoordinates(width, scale, q);
    Grid.DivModUnique(LedOf(width, scale, p), width, lp.1, lp.0);
    Grid.DivModUnique(LedOf(width, scale, q), width, lq.1, lq.0);
    Grid.DivModUnique(SubOf(width, scale, p), scale, sp.1, sp.0);
    Grid.DivModUnique(SubOf(width, scale, q), scale, sq.1, sq.0);
  }

  /** How LedOf and SubOf take canvas pixel p apart: into the LED's column
      and row and the sub-pixel's column and row, from which p is rebuilt. */
  lemma LedCoordinates(width: nat, scale: nat, p: nat) returns (led: (int, int), sub: (int, int))
    requires width > 0 && scale > 0
    ensures 0 <= led.0 < width && 0 <= led.1 && 0 <= sub.0 < scale && 0 <= sub.1 < scale
    ensures LedOf(width, scale, p) == led.1 * width + led.0 && SubOf(width, scale, p) == sub.1 * scale + sub.0
    ensures p == (led.1 * scale + sub.1) * (width * scale) + led.0 * scale + sub.0
  {
    var cw := width * scale;
    Grid.MulPos(width, scale);
    var cx, cy := p % cw, p / cw;
    Grid.DivMod(p, cw);
    assert cx < scale * width;
    Grid.IndexCell(scale, width, cx);
    Grid.DivMod(cy, scale);
    led := (cx / scale, cy / scale);
    sub := (cx % scale, cy % scale);
  }

  // ---------------------------------------------------------------------
  // The RGBA image

  /** The four bytes of canvas pixel p. */
  function Pixel(s: seq<int>, p: nat): seq<int>
    requires 4 * p + 4 <= |s|
  {
    s[4 * p..4 * p + 4]
  }

  /** The opaque background colour (10, 10, 10). */
  const Background: seq<int> := [10, 10, 10, 255]

  /** The bytes of a lit pixel: the colour rounded, then clamped to a byte
      as the Uint8ClampedArray store does, fully opaque. */
  function LedBytes(c: Rgb): (b: seq<int>)
    ensures |b| == 4 && forall k :: 0 <= k < 4 ==> 0 <= b[k] <= 255
  {
    [ClampByte(Round(c.r)), ClampByte(Round(c.g)), ClampByte(Round(c.b)), 255]
  }

  /** A buffer cell, or black where the buffer has none. */
  function ColorAt(buffer: seq<Rgb>, i: int): Rgb
  {
    if 0 <= i < |buffer| then buffer[i] else Black
  }

  /** What flush puts in canvas pixel p: its LED's bytes where the template
      is set, the background elsewhere. */
  function ImagePixel(buffer: seq<Rgb>, width: nat, scale: nat, pixelGap: real, p: nat): seq<int>
    requires width > 0 && scale > 0
  {
    if TemplateOn(scale, pixelGap, SubOf(width, scale, p)) then LedBytes(ColorAt(buffer, LedOf(width, scale, p)))
    else Background
  }

  /** The four byte stores of one canvas pixel. */
  method PutPixel(image: array<int>, p: nat, bytes: seq<int>)
    requires |bytes| == 4 && 4 * p + 4 <= image.Length
    modifies image
    ensures forall q :: 0 <= q && 4 * q + 4 <= image.Length ==>
      Pixel(image[..], q) == if q == p then bytes else Pixel(old(image[..]), q)
  {
    image[4 * p] := bytes[0];
    image[4 * p + 1] := bytes[1];
    image[4 * p + 2] := bytes[2];
    image[4 * p + 3] := bytes[3];
    assert image[..][4 * p..4 * p + 4] == bytes;
  }

  /** _fillBackground: every pixel opaque (10, 10, 10). */
  method FillBackground(image: array<int>)
    requires image.Length % 4 == 0
    modifies image
    ensures forall q :: 0 <= q && 4 * q + 4 <= image.Length ==> Pixel(image[..], q) == Background
  {
    var i := 0;
    while i < image.Length
      invariant 0 <= i <= image.Length && i % 4 == 0
      invariant forall q :: 0 <= q && 4 * q + 4 <= i ==> Pixel(image[..], q) == Background
    {
      PutPixel(image, i / 4, Background);
      i := i + 4;
    }
  }

  /** Canvas pixel q once the first k sub-pixels of LED `led`'s block are
      painted over `before`. */
  function BlockStage(before: seq<int>, buffer: seq<Rgb>, width: nat, scale: nat, pixelGap: real,
                      led: int, k: int, q: nat): seq<int>
    requires width > 0 && scale > 0 && 4 * q + 4 <= |before|
  {
    if LedOf(width, scale, q) == led && SubOf(width, scale, q) < k then ImagePixel(buffer, width, scale, pixelGap, q)
    else Pixel(before, q)
  }

  /** The body of flush's innermost loop: sub-pixel (px, py) of LED
      (ledX, ledY) gets the LED's bytes or the background, which extends the
      painted part of the block by one sub-pixel. */
  method PaintSubPixel(image: array<int>, buffer: seq<Rgb>, template: seq<bool>, width: nat, height: nat,
                       scale: nat, pixelGap: real, ledX: nat, ledY: nat, px: nat, py: nat,
                       lit: seq<int>, ghost before: seq<int>)
    requires ledX < width && ledY < height && |buffer| == width * height && px < scale && py < scale
    requires image.Length == 4 * CanvasPixels(width, height, scale) == |before|
    requires IsTemplate(template, scale, pixelGap)
    requires lit == LedBytes(ColorAt(buffer, ledY * width + ledX))
    requires forall q :: 0 <= q < CanvasPixels(width, height, scale) ==>
      Pixel(image[..], q) == BlockStage(before, buffer, width, scale, pixelGap, ledY * width + ledX, py * scale + px, q)
    modifies image
    ensures forall q :: 0 <= q < CanvasPixels(width, height, scale) ==>
      Pixel(image[..], q) == BlockStage(before, buffer, width, scale, pixelGap, ledY * width + ledX, py * scale + px + 1, q)
  {
    var templateIdx := py * scale + px;
    var canvasPixel := (ledY * scale + py) * (width * scale) + (ledX * scale + px);
    Decompose(width, height, scale, ledX, ledY, px, py);
    Grid.CellIndex(scale, scale, px, py);
    var bytes := if template[templateIdx] then lit else Background;
    assert bytes == ImagePixel(buffer, width, scale, pixelGap, canvasPixel);
    ghost var prior := image[..];
    PutPixel(image, canvasPixel, bytes);
    forall q | 0 <= q < CanvasPixels(width, height, scale)
      ensures Pixel(image[..], q) == BlockStage(before, buffer, width, scale, pixelGap, ledY * width + ledX, templateIdx + 1, q)
    {
      if q != canvasPixel {
        assert Pixel(image[..], q) == Pixel(prior, q);
        if LedOf(width, scale, q) == ledY * width + ledX && SubOf(width, scale, q) == templateIdx {
          Injective(width, scale, q, canvasPixel);
        }
      }
    }
  }

  /** The two inner loops of flush for LED (ledX, ledY): every pixel of its
      block gets its bytes or the background, and no other pixel changes. */
  method FillBlock(image: array<int>, buffer: seq<Rgb>, template: seq<bool>, width: nat, height: nat,
                   scale: nat, pixelGap: real, ledX: nat, ledY: nat)
    requires ledX < width && ledY < height && |buffer| == width * height
    requires image.Length == 4 * CanvasPixels(width, height, scale)
    requires IsTemplate(template, scale, pixelGap)
    modifies image
    ensures forall q :: 0 <= q < CanvasPixels(width, height, scale) ==>
      Pixel(image[..], q) == if LedOf(width, scale, q) == ledY * width + ledX then ImagePixel(buffer, width, scale, pixelGap, q)
                             else Pixel(old(image[..]), q)
  {
    ghost var before := image[..];
    ghost var n := CanvasPixels(width, height, scale);
    ghost var led := ledY * width + ledX;
    Grid.CellIndex(width, height, ledX, ledY);
    var color := buffer[ledY * width + ledX];
    var lit := LedBytes(color);
    var py := 0;
    while py < scale
      invariant 0 <= py <= scale
      invariant forall q :: 0 <= q < n ==> Pixel(image[..], q) == BlockStage(before, buffer, width, scale, pixelGap, led, py * scale, q)
    {
      var px := 0;
      while px < scale
        invariant 0 <= px <= scale
        invariant forall q :: 0 <= q < n ==>
          Pixel(image[..], q) == BlockStage(before, buffer, width, scale, pixelGap, led, py * scale + px, q)
      {
        PaintSubPixel(image, buffer, template, width, height, scale, pixelGap, ledX, ledY, px, py, lit, before);
        px := px + 1;
      }
      Grid.NextRow(py, scale);
      py := py + 1;
    }
    forall q | 0 <= q < n
      ensures SubOf(width, scale, q) < scale * scale
    {
      Bounds(width, height, scale, q);
    }
  }

  /** The two outer loops of flush: the blocks of all LEDs, row by row, so
      that every canvas pixel ends up as ImagePixel says. */
  method FillImage(image: array<int>, buffer: seq<Rgb>, template: seq<bool>, width: nat, height: nat,
                   scale: nat, pixelGap: real)
    requires scale > 0 && |buffer| == width * height
    requires image.Length == 4 * CanvasPixels(width, height, scale)
    requires IsTemplate(template, scale, pixelGap)
    modifies image
    ensures width > 0 ==> forall q :: 0 <= q < CanvasPixels(width, height, scale) ==>
      Pixel(image[..], q) == ImagePixel(buffer, width, scale, pixelGap, q)
  {
    if width == 0 {
      return;
    }
    ghost var start := image[..];
    ghost var n := CanvasPixels(width, height, scale);
    forall q | 0 <= q < n
      ensures 0 <= LedOf(width, scale, q) < height * width
    {
      Bounds(width, height, scale, q);
    }
    var ledY := 0;
    ghost var done := 0;
    while ledY < height
      invariant 0 <= ledY <= height && done == ledY * width
      invariant forall q :: 0 <= q < n ==>
        Pixel(image[..], q) == if LedOf(width, scale, q) < done
                               then ImagePixel(buffer, width, scale, pixelGap, q) else Pixel(start, q)
    {
      var ledX := 0;
      while ledX < width
        invariant 0 <= ledX <= width && done == ledY * width + ledX
        invariant forall q :: 0 <= q < n ==>
          Pixel(image[..], q) == if LedOf(width, scale, q) < done
                                 then ImagePixel(buffer, width, scale, pixelGap, q) else Pixel(start, q)
      {
        FillBlock(image, buffer, template, width, height, scale, pixelGap, ledX, ledY);
        ledX, done := ledX + 1, done + 1;
      }
      Grid.NextRow(ledY, width);
      ledY := ledY + 1;
    }
  }

  /** Read per LED: sub-pixel (px, py) of LED (x, y) shows the LED's clamped
      colour when the template sets it and the background otherwise. */
  lemma LedPixel(buffer: seq<Rgb>, width: nat, height: nat, scale: nat, pixelGap: real, x: int, y: int, px: int, py: int)
    requires |buffer| == width * height && 0 <= x < width && 0 <= y < height && 0 <= px < scale && 0 <= py < scale
    ensures var p := (y * scale + py) * (width * scale) + x * scale + px;
      0 <= p < CanvasPixels(width, height, scale) && 0 <= y * width + x < |buffer| &&
      ImagePixel(buffer, width, scale, pixelGap, p) ==
        if Inside(scale, pixelGap, px, py) then LedBytes(buffer[y * width + x]) else Background
  {
    Decompose(width, height, scale, x, y, px, py);
    Grid.CellIndex(width, height, x, y);
    Grid.DivModUnique(py * scale + px, scale, py, px);
  }

  class BitmapLedRenderer {
    const player: Player
    const pixelGap: real
    const glowEnabled: bool
    const scale: nat
    var canvasCreated: bool
    /** _pixelTemplate: which sub-pixels of a block are lit. */
    var template: seq<bool>
    /** _imageData.data: RGBA bytes, row by row over the canvas. */
    var image: array<int>
    /** What the main canvas and the glow canvas show. */
    var shown: seq<int>
    var glowShown: Option<seq<int>>

    ghost predicate Valid()
      reads this, player, player.surface, player.manager
    {
      player.Valid() && scale > 0 &&
      (canvasCreated ==>
        image.Length == 4 * CanvasPixels(player.surface.width, player.surface.height, scale) &&
        IsTemplate(template, scale, pixelGap))
    }

    /** The canvas shows the buffer: every canvas pixel of the image holds
        its LED's colour where the template is lit and the background
        elsewhere, the canvas shows the image and the glow canvas, when
        enabled, the same. */
    ghost predicate Painted()
      reads this, image, player, player.surface
    {
      var w, h := player.surface.width, player.surface.height;
      canvasCreated && scale > 0 && image.Length == 4 * CanvasPixels(w, h, scale) &&
      (w > 0 ==> forall q :: 0 <= q < CanvasPixels(w, h, scale) ==>
        Pixel(image[..], q) == ImagePixel(player.surface.buffer, w, scale, pixelGap, q)) &&
      shown == image[..] && glowShown == if glowEnabled then Some(shown) else None
    }

    /** A 64 by 16 display, gap 0.15, glow on and scale 8 unless given
        (zero counts as not given, and only an explicit false turns glow
        off); speed 100, a black buffer and no canvas yet. */
    constructor (width: Option<nat>, height: Option<nat>, pixelGap: Option<real>, glow: Option<bool>, scale: Option<nat>)
      ensures Valid() && fresh(player) && fresh(player.surface)
      ensures player.surface.width == (if width.Some? && width.value > 0 then width.value else 64)
      ensures player.surface.height == (if height.Some? && height.value > 0 then height.value else 16)
      ensures this.pixelGap == (if pixelGap.Some? && pixelGap.value != 0.0 then pixelGap.value else 0.15)
      ensures glowEnabled <==> glow != Some(false)
      ensures this.scale == (if scale.Some? && scale.value > 0 then scale.value else 8)
      ensures player.surface.buffer == seq(|player.surface.buffer|, _ => Black)
      ensures player.speed == 100.0 && player.effect == "fixed" && !player.running
      ensures !canvasCreated && template == [] && glowShown.None?
    {
      var w := if width.Some? && width.value > 0 then width.value else 64;
      var h := if height.Some? && height.value > 0 then height.value else 16;
      var surface := new LedSurface(w, h);
      this.pixelGap := if pixelGap.Some? && pixelGap.value != 0.0 then pixelGap.value else 0.15;
      glowEnabled := glow != Some(false);
      this.scale := if scale.Some? && scale.value > 0 then scale.value else 8;
      player := new Player(surface, 100.0);
      canvasCreated := false;
      template := [];
      image := new int[0];
      shown := [];
      glowShown := None;
    }

    /** _createCanvas: a fresh image of the canvas's size, the template, and
        the background in every pixel. */
    method CreateCanvas()
      requires Valid()
      modifies this
      ensures Valid() && canvasCreated && fresh(image)
      ensures forall q :: 0 <= q && 4 * q + 4 <= image.Length ==> Pixel(image[..], q) == Background
      ensures shown == old(shown) && glowShown == old(glowShown)
    {
      var n := CanvasPixels(player.surface.width, player.surface.height, scale);
      image := new int[4 * n];
      template := CreatePixelTemplate(scale, pixelGap);
      FillBackground(image);
      canvasCreated := true;
    }

    /** flush: creates the canvas on first use, writes every LED's block into
        the image, shows it, and mirrors it onto the glow canvas. */
    method Flush()
      requires Valid()
      modifies this, image
      ensures Valid() && Painted()
    {
      if !canvasCreated {
        CreateCanvas();
      }
      FillImage(image, player.surface.buffer, template, player.surface.width, player.surface.height, scale, pixelGap);
      shown := image[..];
      glowShown := if glowEnabled then Some(shown) else None;
    }

    /** setPixel, as every backend does it. */
    method SetPixel(x: int, y: int, c: Rgb)
      requires Valid()
      modifies player.surface`buffer
      ensures Valid()
      ensures player.surface.buffer == WithPixel(old(player.surface.buffer), player.surface.width, player.surface.height, x, y, c)
    {
      player.surface.SetPixel(x, y, c);
    }

    /** clear: every cell black. */
    method Clear()
      requires Valid()
      modifies player.surface`buffer
      ensures Valid()
      ensures player.surface.buffer == seq(|old(player.surface.buffer)|, _ => Black)
    {
      player.surface.Clear();
    }

    /** _renderFrame: the manager draws into the buffer, then a flush. */
    method RenderFrame(host: Host)
      requires Valid()
      modifies this, image, player.surface`buffer
      ensures Valid() && Painted() && unchanged(player.manager)
      ensures player.surface.buffer ==
        Effects.Frame(player.manager.data, player.manager.tick, player.colorPixels, player.extendedColorPixels,
                      player.surface.extendedWidth, player.surface.width, player.surface.height, host,
                      old(player.surface.buffer))
    {
      player.RenderFrame(host);
      Flush();
    }

    /** renderStatic: one frame without starting the loop. */
    method RenderStatic(host: Host)
      requires Valid()
      modifies this, image, player.surface`buffer
      ensures Valid() && Painted() && unchanged(player.manager)
      ensures player.surface.buffer ==
        Effects.Frame(player.manager.data, player.manager.tick, player.colorPixels, player.extendedColorPixels,
                      player.surface.extendedWidth, player.surface.width, player.surface.height, host,
                      old(player.surface.buffer))
    {
      if !canvasCreated {
        CreateCanvas();
      }
      RenderFrame(host);
    }

    /** One animation tick: the shared tick, then a flush when it rendered. */
    method Animate(now: real, host: Host)
      requires Valid() && host.Valid()
      modifies this, image, player, player.manager, player.surface`buffer
      ensures Valid() && player.running == old(player.running) && player.manager == old(player.manager)
      ensures player.effect == old(player.effect) && player.speed == old(player.speed)
      ensures player.colorPixels == old(player.colorPixels) && player.extendedColorPixels == old(player.extendedColorPixels)
      ensures old(player.running) ==> player.Ticked(now, host) && Painted()
      ensures !old(player.running) ==>
        unchanged(this) && unchanged(image) && unchanged(player) && unchanged(player.manager) && unchanged(player.surface)
    {
      var rendered := player.Animate(now, host);
      if rendered {
        Flush();
      }
    }

    /** start: begins the loop with a first tick unless already running. */
    method Start(now: real, host: Host)
      requires Valid() && host.Valid()
      modifies this, image, player, player.manager, player.surface`buffer
      ensures Valid() && player.running && player.manager == old(player.manager)
      ensures player.effect == old(player.effect) && player.speed == old(player.speed)
      ensures player.colorPixels == old(player.colorPixels) && player.extendedColorPixels == old(player.extendedColorPixels)
      ensures !old(player.running) ==> player.Began(now, host) && Painted()
      ensures old(player.running) ==>
        unchanged(this) && unchanged(image) && unchanged(player) && unchanged(player.manager) && unchanged(player.surface)
    {
      var begun := player.Start(now);
      if begun {
        Animate(now, host);
      }
    }

    /** setDimensions: for a new size the renderer takes the size, a black
        buffer and a fresh manager, and the canvas, image and template are
        recreated at the next flush. */
    method SetDimensions(width: nat, height: nat, host: Host)
      requires Valid() && host.Valid()
      modifies this, player, player.surface
      ensures Valid()
      ensures player.effect == old(player.effect) && player.speed == old(player.speed) && player.running == old(player.running)
      ensures player.colorPixels == old(player.colorPixels) && player.extendedColorPixels == old(player.extendedColorPixels)
      ensures width == old(player.surface.width) && height == old(player.surface.height) ==>
        unchanged(this) && unchanged(player) && unchanged(player.surface)
      ensures width != old(player.surface.width) || height != old(player.surface.height) ==>
        player.surface.buffer == seq(width * height, _ => Black) && !canvasCreated &&
        player.surface.width == width && player.surface.height == height && player.surface.extendedWidth == width &&
        fresh(player.manager) && player.manager.tick == 0
      ensures (width != old(player.surface.width) || height != old(player.surface.height)) && old(player.effect) == "fixed" ==>
        player.manager.currentEffect == "fixed" && player.manager.data == Effects.TextData(TextEffects.Plain)
      ensures (width != old(player.surface.width) || height != old(player.surface.height)) && old(player.effect) != "fixed" ==>
        player.manager.currentEffect == old(player.effect) && player.manager.options == Options(Some(player.speed), None) &&
        Effects.Started(old(player.effect), Options(Some(player.speed), None), player.manager.data, width, height, host)
    {
      var resized := player.SetDimensions(width, height, host);
      if resized {
        canvasCreated := false;
      }
    }

    /** destroy: stops the loop and drops the canvases, the image and the
        template. */
    method Destroy()
      requires Valid()
      modifies this, player
      ensures Valid() && !player.running && !player.frameRequested
      ensures !canvasCreated && template == [] && image.Length == 0 && glowShown.None? && unchanged(player.surface)
      ensures player.effect == old(player.effect) && player.speed == old(player.speed)
      ensures player.manager == old(player.manager) && player.lastFrameTime == old(player.lastFrameTime)
      ensures player.colorPixels == old(player.colorPixels) && player.extendedColorPixels == old(player.extendedColorPixels)
    {
      player.Stop();
      canvasCreated := false;
      template := [];
      image := new int[0];
      glowShown := None;
    }
  }
}
