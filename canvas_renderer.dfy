// The canvas backend of src/core/renderers/canvas-renderer.ts: flush clears
// the canvas to #0a0a0a and fills one rounded square per LED, in the LED's
// rounded colour, at the LED's block; the glow canvas, when enabled, receives
// a copy of the frame.
module CanvasRenderer {
  import opened Types
  import opened JsMath
  import opened Surface
  import opened RenderLoop
  import opened PixelGeometry
  import Grid
  import Effects
  import TextEffects

  /** One `_roundRect` fill: top-left corner, side, corner radius and the
      rounded colour of the fillStyle. */
  datatype RoundRect = RoundRect(x: int, y: int, size: int, radius: int, r: int, g: int, b: int)

  /** What a canvas shows after a flush: its size, background #0a0a0a
      (implicit) and the squares drawn over it, in drawing order. */
  datatype Frame = Frame(width: int, height: int, squares: seq<RoundRect>)

  /** The square of LED (x, y) in colour c. */
  function LedSquare(scale: nat, pixelGap: real, x: int, y: int, c: Rgb): RoundRect
  {
    RoundRect(x * scale, y * scale, PixelSize(scale, pixelGap), CornerRadius(scale), Round(c.r), Round(c.g), Round(c.b))
  }

  /** The square drawn i-th: that of LED (i % width, i / width). */
  function SquareAt(buffer: seq<Rgb>, width: nat, scale: nat, pixelGap: real, i: nat): RoundRect
    requires width > 0 && i < |buffer|
  {
    LedSquare(scale, pixelGap, i % width, i / width, buffer[i])
  }

  /** The nested loops of flush: every LED's square, row by row. */
  method DrawLeds(buffer: seq<Rgb>, width: nat, height: nat, scale: nat, pixelGap: real)
    returns (squares: seq<RoundRect>)
    requires |buffer| == width * height
    ensures |squares| == width * height
    ensures width > 0 ==> forall i :: 0 <= i < |squares| ==> squares[i] == SquareAt(buffer, width, scale, pixelGap, i)
  {
    squares := [];
    var y := 0;
    while y < height
      invariant 0 <= y <= height && |squares| == y * width
      invariant width > 0 ==> forall i :: 0 <= i < |squares| ==> squares[i] == SquareAt(buffer, width, scale, pixelGap, i)
    {
      var x := 0;
      Grid.MulMono(y + 1, height, width);
      while x < width
        invariant 0 <= x <= width && |squares| == y * width + x
        invariant width > 0 ==> forall i :: 0 <= i < |squares| ==> squares[i] == SquareAt(buffer, width, scale, pixelGap, i)
      {
        Grid.DivModUnique(y * width + x, width, y, x);
        squares := squares + [LedSquare(scale, pixelGap, x, y, buffer[y * width + x])];
        x := x + 1;
      }
      Grid.NextRow(y, width);
      y := y + 1;
    }
  }

  /** LED (x, y) is the (y * width + x)-th square, drawn at its block. */
  lemma SquareOfLed(buffer: seq<Rgb>, width: nat, height: nat, scale: nat, pixelGap: real, x: int, y: int)
    requires |buffer| == width * height && 0 <= x < width && 0 <= y < height
    ensures 0 <= y * width + x < |buffer|
    ensures SquareAt(buffer, width, scale, pixelGap, y * width + x) == LedSquare(scale, pixelGap, x, y, buffer[y * width + x])
  {
    Grid.CellIndex(width, height, x, y);
  }

  /** Two squares of the same row never overlap: the left one ends before
      the right one's block begins. */
  lemma SquaresApart(scale: nat, pixelGap: real, x1: int, x2: int, y: int, c1: Rgb, c2: Rgb)
    requires x1 < x2
    ensures var s1, s2 := LedSquare(scale, pixelGap, x1, y, c1), LedSquare(scale, pixelGap, x2, y, c2);
      s1.y == s2.y && s1.x + s1.size < s2.x
  {
    BlocksSeparate(scale, pixelGap, x1, x2);
  }

  class CanvasLedRenderer {
    const player: Player
    const pixelGap: real
    const glowEnabled: bool
    const scale: nat
    var canvasCreated: bool
    /** The main canvas and the glow canvas; None before creation. */
    var canvas: Option<Frame>
    var glow: Option<Frame>

    ghost predicate Valid()
      reads this, player, player.surface, player.manager
    {
      player.Valid() && (glow.Some? ==> glowEnabled)
    }

    /** The canvas shows the buffer: the display's size in pixels, and one
        square per LED in drawing order; the glow canvas, when enabled,
        shows the same. */
    ghost predicate Painted()
      reads this, player, player.surface
    {
      var w, h, buffer := player.surface.width, player.surface.height, player.surface.buffer;
      canvasCreated && canvas.Some? &&
      canvas.value.width == w * scale && canvas.value.height == h * scale &&
      |canvas.value.squares| == |buffer| &&
      (w > 0 ==> forall i :: 0 <= i < |buffer| ==> canvas.value.squares[i] == SquareAt(buffer, w, scale, pixelGap, i)) &&
      glow == if glowEnabled then canvas else None
    }

    /** A 64 by 16 display, gap 0.15, glow on and scale 8 unless given
        (zero counts as not given, and only an explicit false turns glow
        off); speed 100 and a black buffer. */
    constructor (width: Option<nat>, height: Option<nat>, pixelGap: Option<real>, glow: Option<bool>, scale: Option<nat>)
      ensures Valid() && fresh(player) && fresh(player.surface)
      ensures player.surface.width == (if width.Some? && width.value > 0 then width.value else 64)
      ensures player.surface.height == (if height.Some? && height.value > 0 then height.value else 16)
      ensures this.pixelGap == (if pixelGap.Some? && pixelGap.value != 0.0 then pixelGap.value else 0.15)
      ensures glowEnabled <==> glow != Some(false)
      ensures this.scale == (if scale.Some? && scale.value > 0 then scale.value else 8)
      ensures player.surface.buffer == seq(|player.surface.buffer|, _ => Black)
      ensures player.speed == 100.0 && player.effect == "fixed" && !player.running
      ensures !canvasCreated && canvas.None? && this.glow.None?
    {
      var w := if width.Some? && width.value > 0 then width.value else 64;
      var h := if height.Some? && height.value > 0 then height.value else 16;
      var surface := new LedSurface(w, h);
      this.pixelGap := if pixelGap.Some? && pixelGap.value != 0.0 then pixelGap.value else 0.15;
      glowEnabled := glow != Some(false);
      this.scale := if scale.Some? && scale.value > 0 then scale.value else 8;
      player := new Player(surface, 100.0);
      canvasCreated := false;
      canvas := None;
      this.glow := None;
    }

    /** _createCanvas: blank canvases of the display's size in pixels, the
        glow canvas only when glow is enabled. */
    method CreateCanvas()
      requires Valid()
      modifies this
      ensures Valid() && canvasCreated
      ensures canvas == Some(Frame(player.surface.width * scale, player.surface.height * scale, []))
      ensures glow == if glowEnabled then canvas else None
    {
      var blank := Frame(player.surface.width * scale, player.surface.height * scale, []);
      canvas := Some(blank);
      glow := if glowEnabled then Some(blank) else None;
      canvasCreated := true;
    }

    /** flush: creates the canvases on first use, repaints the whole frame
        from the buffer and mirrors it onto the glow canvas. */
    method Flush()
      requires Valid()
      modifies this
      ensures Valid() && Painted()
    {
      if !canvasCreated {
        CreateCanvas();
      }
      var squares := DrawLeds(player.surface.buffer, player.surface.width, player.surface.height, scale, pixelGap);
      canvas := Some(Frame(player.surface.width * scale, player.surface.height * scale, squares));
      if glowEnabled {
        glow := canvas;
      } else {
        glow := None;
      }
    }

    /** setPixel, as every backend does it. */
    method SetPixel(x: int, y: int, c: Rgb)
      requires Valid()
      modifies player.surface`buffer
      ensures Valid()
      ensures player.surface.buffer == WithPixel(old(player.surface.buffer), player.surface.width, player.surface.height, x, y, c)
    {
      player.surface.SetPixel(x, y, c);
    }

    /** clear: every cell black. */
    method Clear()
      requires Valid()
      modifies player.surface`buffer
      ensures Valid()
      ensures player.surface.buffer == seq(|old(player.surface.buffer)|, _ => Black)
    {
      player.surface.Clear();
    }

    /** _renderFrame: the manager draws into the buffer, then a flush. */
    method RenderFrame(host: Host)
      requires Valid()
      modifies this, player.surface`buffer
      ensures Valid() && Painted() && unchanged(player.manager)
      ensures player.surface.buffer ==
        Effects.Frame(player.manager.data, player.manager.tick, player.colorPixels, player.extendedColorPixels,
                      player.surface.extendedWidth, player.surface.width, player.surface.height, host,
                      old(player.surface.buffer))
    {
      player.RenderFrame(host);
      Flush();
    }

    /** renderStatic: one frame without starting the loop. */
    method RenderStatic(host: Host)
      requires Valid()
      modifies this, player.surface`buffer
      ensures Valid() && Painted() && unchanged(player.manager)
      ensures player.surface.buffer ==
        Effects.Frame(player.manager.data, player.manager.tick, player.colorPixels, player.extendedColorPixels,
                      player.surface.extendedWidth, player.surface.width, player.surface.height, host,
                      old(player.surface.buffer))
    {
      if !canvasCreated {
        CreateCanvas();
      }
      RenderFrame(host);
    }

    /** One animation tick: the shared tick, then a flush when it rendered. */
    method Animate(now: real, host: Host)
      requires Valid() && host.Valid()
      modifies this, player, player.manager, player.surface`buffer
      ensures Valid() && player.running == old(player.running) && player.manager == old(player.manager)
      ensures player.effect == old(player.effect) && player.speed == old(player.speed)
      ensures player.colorPixels == old(player.colorPixels) && player.extendedColorPixels == old(player.extendedColorPixels)
      ensures old(player.running) ==> player.Ticked(now, host) && Painted()
      ensures !old(player.running) ==>
        unchanged(this) && unchanged(player) && unchanged(player.manager) && unchanged(player.surface)
    {
      var rendered := player.Animate(now, host);
      if rendered {
        Flush();
      }
    }

    /** start: begins the loop with a first tick unless already running. */
    method Start(now: real, host: Host)
      requires Valid() && host.Valid()
      modifies this, player, player.manager, player.surface`buffer
      ensures Valid() && player.running && player.manager == old(player.manager)
      ensures player.effect == old(player.effect) && player.speed == old(player.speed)
      ensures player.colorPixels == old(player.colorPixels) && player.extendedColorPixels == old(player.extendedColorPixels)
      ensures !old(player.running) ==> player.Began(now, host) && Painted()
      ensures old(player.running) ==>
        unchanged(this) && unchanged(player) && unchanged(player.manager) && unchanged(player.surface)
    {
      var begun := player.Start(now);
      if begun {
        Animate(now, host);
      }
    }

    /** setDimensions: for a new size the renderer takes the size, a black
        buffer and a fresh manager, and the canvases are recreated at the
        next flush. */
    method SetDimensions(width: nat, height: nat, host: Host)
      requires Valid() && host.Valid()
      modifies this, player, player.surface
      ensures Valid()
      ensures player.effect == old(player.effect) && player.speed == old(player.speed) && player.running == old(player.running)
      ensures player.colorPixels == old(player.colorPixels) && player.extendedColorPixels == old(player.extendedColorPixels)
      ensures width == old(player.surface.width) && height == old(player.surface.height) ==>
        unchanged(this) && unchanged(player) && unchanged(player.surface)
      ensures width != old(player.surface.width) || height != old(player.surface.height) ==>
        player.surface.width == width && player.surface.height == height && player.surface.extendedWidth == width &&
        player.surface.buffer == seq(width * height, _ => Black) && !canvasCreated &&
        fresh(player.manager) && player.manager.tick == 0
      ensures (width != old(player.surface.width) || height != old(player.surface.height)) && old(player.effect) == "fixed" ==>
        player.manager.currentEffect == "fixed" && player.manager.data == Effects.TextData(TextEffects.Plain)
      ensures (width != old(player.surface.width) || height != old(player.surface.height)) && old(player.effect) != "fixed" ==>
        player.manager.currentEffect == old(player.effect) && player.manager.options == Options(Some(player.speed), None) &&
        Effects.Started(old(player.effect), Options(Some(player.speed), None), player.manager.data, width, height, host)
    {
      var resized := player.SetDimensions(width, height, host);
      if resized {
        canvasCreated := false;
      }
    }

    /** destroy: stops the loop and drops both canvases. */
    method Destroy()
      requires Valid()
      modifies this, player
      ensures Valid() && !player.running && !player.frameRequested
      ensures canvas.None? && glow.None? && !canvasCreated && unchanged(player.surface)
      ensures player.effect == old(player.effect) && player.speed == old(player.speed)
      ensures player.manager == old(player.manager) && player.lastFrameTime == old(player.lastFrameTime)
      ensures player.colorPixels == old(player.colorPixels) && player.extendedColorPixels == old(player.extendedColorPixels)
    {
      player.Stop();
      canvas := None;
      glow := None;
      canvasCreated := false;
    }
  }
}
