// The SVG backend of src/core/renderers/svg-renderer.ts: one <rect> per LED,
// repainted by flush only where the buffer differs from the colours last
// painted (prevBuffer), and the standalone createPixelSvg markup builder.
module SvgRenderer {
  import opened Types
  import opened JsMath
  import opened Utils
  import opened Surface
  import opened RenderLoop
  import Effects
  import TextEffects

  /** The colour prevBuffer starts with: no buffer colour equals it, so the
      first flush repaints every cell. */
  const Sentinel := Rgb(-1.0, -1.0, -1.0)

  /** What a <rect> shows: its fill, rounded per channel, and whether it
      carries the drop-shadow filter. */
  datatype RectStyle = RectStyle(r: int, g: int, b: int, shadow: bool)

  /** A fresh <rect>: grey rgb(17, 17, 17) without filter. */
  const Unpainted := RectStyle(17, 17, 17, false)

  /** The style flush gives a cell of colour c: the rounded colour, with a
      drop shadow exactly when the colour is lit. */
  function Painted(c: Rgb): RectStyle
  {
    RectStyle(Round(c.r), Round(c.g), Round(c.b), IsLit(c))
  }

  /** The cells among the first `n` whose colour differs from the painted
      one, in index order. */
  function ChangedUpTo(prev: seq<Rgb>, buffer: seq<Rgb>, n: nat): (r: seq<nat>)
    requires n <= |buffer| && n <= |prev|
    ensures forall i: int :: i in r <==> 0 <= i < n && buffer[i] != prev[i]
    ensures forall k :: 0 <= k < |r| ==> r[k] < n
  {
    if n == 0 then []
    else ChangedUpTo(prev, buffer, n - 1) + (if buffer[n - 1] != prev[n - 1] then [n - 1] else [])
  }

  function Changed(prev: seq<Rgb>, buffer: seq<Rgb>): seq<nat>
    requires |prev| == |buffer|
  {
    ChangedUpTo(prev, buffer, |buffer|)
  }

  /** A second flush with no write in between repaints nothing. */
  lemma {:induction false} FlushIdempotent(buffer: seq<Rgb>, n: nat)
    requires n <= |buffer|
    ensures ChangedUpTo(buffer, buffer, n) == []
  {
    if n > 0 {
      FlushIdempotent(buffer, n - 1);
    }
  }

  /** After _initBuffer every cell differs from its sentinel, so the first
      flush repaints all of them, in order. */
  lemma {:induction false} FirstFlushRepaintsAll(buffer: seq<Rgb>, n: nat)
    requires n <= |buffer| && forall i :: 0 <= i < |buffer| ==> buffer[i] != Sentinel
    ensures ChangedUpTo(seq(|buffer|, _ => Sentinel), buffer, n) == seq(n, i => i)
  {
    if n > 0 {
      FirstFlushRepaintsAll(buffer, n - 1);
      ghost var prev := seq(|buffer|, _ => Sentinel);
      assert buffer[n - 1] != prev[n - 1];
      assert seq(n, i => i) == seq(n - 1, i => i) + [n - 1];
    }
  }

  /** `n` sentinel colours, pushed one by one. */
  method FreshPrevBuffer(n: nat) returns (r: seq<Rgb>)
    ensures r == seq(n, _ => Sentinel)
  {
    r := [];
    while |r| < n
      invariant |r| <= n && r == seq(|r|, _ => Sentinel)
    {
      r := r + [Sentinel];
    }
  }

  /** `n` fresh <rect>s, appended one by one. */
  method FreshRects(n: nat) returns (r: seq<RectStyle>)
    ensures r == seq(n, _ => Unpainted)
  {
    r := [];
    while |r| < n
      invariant |r| <= n && r == seq(|r|, _ => Unpainted)
    {
      r := r + [Unpainted];
    }
  }

  /** One pass of flush's loop, for cell i (the cells before it are done):
      repainted and recorded when its colour differs from the painted one. */
  method RepaintCell(prev: seq<Rgb>, rects: seq<RectStyle>, buffer: seq<Rgb>, i: nat,
                     curPrev: seq<Rgb>, curRects: seq<RectStyle>, changed: seq<nat>)
    returns (newPrev: seq<Rgb>, newRects: seq<RectStyle>, changed': seq<nat>)
    requires |prev| == |buffer| && |rects| == |buffer| && i < |buffer|
    requires |curPrev| == |buffer| && |curRects| == |buffer|
    requires changed == ChangedUpTo(prev, buffer, i)
    requires forall j :: 0 <= j < |buffer| ==> curPrev[j] == if j < i then buffer[j] else prev[j]
    requires forall j :: 0 <= j < |buffer| ==>
      curRects[j] == if j < i && buffer[j] != prev[j] then Painted(buffer[j]) else rects[j]
    ensures |newPrev| == |buffer| && |newRects| == |buffer|
    ensures changed' == ChangedUpTo(prev, buffer, i + 1)
    ensures forall j :: 0 <= j < |buffer| ==> newPrev[j] == if j <= i then buffer[j] else prev[j]
    ensures forall j :: 0 <= j < |buffer| ==>
      newRects[j] == if j <= i && buffer[j] != prev[j] then Painted(buffer[j]) else rects[j]
  {
    newPrev, newRects, changed' := curPrev, curRects, changed;
    if buffer[i] != curPrev[i] {
      newRects := curRects[i := Painted(buffer[i])];
      newPrev := curPrev[i := buffer[i]];
      changed' := changed + [i];
    }
  }

  /** The loop of flush over plain values: each cell whose colour differs
      from the painted one gets the painted style and is recorded as painted. */
  method Repaint(prev: seq<Rgb>, rects: seq<RectStyle>, buffer: seq<Rgb>)
    returns (newPrev: seq<Rgb>, newRects: seq<RectStyle>, changed: seq<nat>)
    requires |prev| == |buffer| && |rects| == |buffer|
    ensures newPrev == buffer && changed == Changed(prev, buffer)
    ensures |newRects| == |buffer|
    ensures forall i :: 0 <= i < |buffer| ==>
      newRects[i] == if buffer[i] != prev[i] then Painted(buffer[i]) else rects[i]
  {
    newPrev, newRects, changed := prev, rects, [];
    var i := 0;
    while i < |buffer|
      invariant 0 <= i <= |buffer| && |newPrev| == |buffer| && |newRects| == |buffer|
      invariant changed == ChangedUpTo(prev, buffer, i)
      invariant forall j :: 0 <= j < |buffer| ==> newPrev[j] == if j < i then buffer[j] else prev[j]
      invariant forall j :: 0 <= j < |buffer| ==>
        newRects[j] == if j < i && buffer[j] != prev[j] then Painted(buffer[j]) else rects[j]
    {
      newPrev, newRects, changed := RepaintCell(prev, rects, buffer, i, newPrev, newRects, changed);
      i := i + 1;
    }
  }

  class SvgLedRenderer {
    const player: Player
    const pixelGap: real
    /** The colour each <rect> was last painted with. */
    var prevBuffer: seq<Rgb>
    /** pixelElements: the <rect> of each LED, in row-major order. */
    var rects: seq<RectStyle>
    var svgCreated: bool

    ghost predicate Valid()
      reads this, player, player.surface, player.manager
    {
      player.Valid() && |prevBuffer| == |player.surface.buffer| &&
      (svgCreated ==> |rects| == |player.surface.buffer|)
    }

    /** What a flush has made of the <rect>s since the old state: each cell
        whose colour differs from the old prevBuffer is painted in its new
        colour, every other keeps its old <rect> (grey when the <rect>s were
        only just created), and prevBuffer now records the buffer. */
    twostate predicate Repainted()
      reads this, player, player.surface
    {
      var buffer := player.surface.buffer;
      svgCreated && prevBuffer == buffer && |rects| == |buffer| && |old(prevBuffer)| == |buffer| &&
      (old(svgCreated) ==> |old(rects)| == |buffer|) &&
      forall i :: 0 <= i < |rects| ==>
        rects[i] == if buffer[i] != old(prevBuffer)[i] then Painted(buffer[i])
                    else if old(svgCreated) then old(rects)[i] else Unpainted
    }

    /** A 64 by 16 display unless a non-zero size is given, gap 0.1 unless a
        non-zero gap is given, speed 50, black buffer and sentinel prevBuffer. */
    constructor (width: Option<nat>, height: Option<nat>, pixelGap: Option<real>)
      ensures Valid() && fresh(player) && fresh(player.surface)
      ensures player.surface.width == (if width.Some? && width.value > 0 then width.value else 64)
      ensures player.surface.height == (if height.Some? && height.value > 0 then height.value else 16)
      ensures this.pixelGap == (if pixelGap.Some? && pixelGap.value != 0.0 then pixelGap.value else 0.1)
      ensures player.surface.buffer == seq(|player.surface.buffer|, _ => Black)
      ensures prevBuffer == seq(|player.surface.buffer|, _ => Sentinel)
      ensures player.speed == 50.0 && player.effect == "fixed" && !player.running && !svgCreated
    {
      var w := if width.Some? && width.value > 0 then width.value else 64;
      var h := if height.Some? && height.value > 0 then height.value else 16;
      var surface := new LedSurface(w, h);
      var prev := FreshPrevBuffer(w * h);
      this.pixelGap := if pixelGap.Some? && pixelGap.value != 0.0 then pixelGap.value else 0.1;
      player := new Player(surface, 50.0);
      prevBuffer := prev;
      rects := [];
      svgCreated := false;
    }

    /** _createSvg: a grey <rect> per LED, row by row. */
    method CreateSvg()
      requires Valid()
      modifies this
      ensures Valid() && svgCreated && prevBuffer == old(prevBuffer)
      ensures rects == seq(|player.surface.buffer|, _ => Unpainted)
    {
      rects := FreshRects(|player.surface.buffer|);
      svgCreated := true;
    }

    /** flush: creates the <rect>s on first use, then repaints exactly the
        cells whose colour differs from prevBuffer, and records the buffer as
        painted. The repainted cells are the result. */
    method Flush() returns (changed: seq<nat>)
      requires Valid()
      modifies this
      ensures Valid() && Repainted()
      ensures changed == Changed(old(prevBuffer), player.surface.buffer)
    {
      if !svgCreated {
        CreateSvg();
      }
      prevBuffer, rects, changed := Repaint(prevBuffer, rects, player.surface.buffer);
    }

    /** setPixel, as every backend does it. */
    method SetPixel(x: int, y: int, c: Rgb)
      requires Valid()
      modifies player.surface`buffer
      ensures Valid()
      ensures player.surface.buffer == WithPixel(old(player.surface.buffer), player.surface.width, player.surface.height, x, y, c)
    {
      player.surface.SetPixel(x, y, c);
    }

    /** clear: every cell black; prevBuffer is left alone, so the next flush
        repaints the cells that were not black. */
    method Clear()
      requires Valid()
      modifies player.surface`buffer
      ensures Valid() && prevBuffer == old(prevBuffer)
      ensures player.surface.buffer == seq(|old(player.surface.buffer)|, _ => Black)
    {
      player.surface.Clear();
    }

    /** One animation tick: the shared tick, then a flush when it rendered. */
    method Animate(now: real, host: Host)
      requires Valid() && host.Valid()
      modifies this, player, player.manager, player.surface`buffer
      ensures Valid() && player.running == old(player.running) && player.manager == old(player.manager)
      ensures player.effect == old(player.effect) && player.speed == old(player.speed)
      ensures player.colorPixels == old(player.colorPixels) && player.extendedColorPixels == old(player.extendedColorPixels)
      ensures old(player.running) ==> player.Ticked(now, host) && Repainted()
      ensures !old(player.running) ==>
        unchanged(this) && unchanged(player) && unchanged(player.manager) && unchanged(player.surface)
    {
      var rendered := player.Animate(now, host);
      if rendered {
        var _ := Flush();
      }
    }

    /** _renderFrame: the manager draws into the buffer, then the changed
        cells are repainted. */
    method RenderFrame(host: Host) returns (changed: seq<nat>)
      requires Valid()
      modifies this, player.surface`buffer
      ensures Valid() && Repainted() && unchanged(player.manager)
      ensures changed == Changed(old(prevBuffer), player.surface.buffer)
      ensures player.surface.buffer ==
        Effects.Frame(player.manager.data, player.manager.tick, player.colorPixels, player.extendedColorPixels,
                      player.surface.extendedWidth, player.surface.width, player.surface.height, host,
                      old(player.surface.buffer))
    {
      player.RenderFrame(host);
      changed := Flush();
    }

    /** renderStatic: one frame without starting the loop; the <rect>s are
        created first if needed. */
    method RenderStatic(host: Host) returns (changed: seq<nat>)
      requires Valid()
      modifies this, player.surface`buffer
      ensures Valid() && Repainted() && unchanged(player.manager)
      ensures changed == Changed(old(prevBuffer), player.surface.buffer)
      ensures player.surface.buffer ==
        Effects.Frame(player.manager.data, player.manager.tick, player.colorPixels, player.extendedColorPixels,
                      player.surface.extendedWidth, player.surface.width, player.surface.height, host,
                      old(player.surface.buffer))
    {
      if !svgCreated {
        CreateSvg();
      }
      changed := RenderFrame(host);
    }

    /** start: begins the loop with a first tick unless already running. */
    method Start(now: real, host: Host)
      requires Valid() && host.Valid()
      modifies this, player, player.manager, player.surface`buffer
      ensures Valid() && player.running && player.manager == old(player.manager)
      ensures player.effect == old(player.effect) && player.speed == old(player.speed)
      ensures player.colorPixels == old(player.colorPixels) && player.extendedColorPixels == old(player.extendedColorPixels)
      ensures !old(player.running) ==> player.Began(now, host) && Repainted()
      ensures old(player.running) ==>
        unchanged(this) && unchanged(player) && unchanged(player.manager) && unchanged(player.surface)
    {
      var begun := player.Start(now);
      if begun {
        Animate(now, host);
      }
    }

    /** setDimensions: for a new size the renderer takes the size and a fresh
        manager, and both buffers are rebuilt, so the next flush recreates the
        <rect>s and repaints every cell. */
    method SetDimensions(width: nat, height: nat, host: Host)
      requires Valid() && host.Valid()
      modifies this, player, player.surface
      ensures Valid()
      ensures player.effect == old(player.effect) && player.speed == old(player.speed) && player.running == old(player.running)
      ensures player.colorPixels == old(player.colorPixels) && player.extendedColorPixels == old(player.extendedColorPixels)
      ensures width == old(player.surface.width) && height == old(player.surface.height) ==>
        unchanged(this) && unchanged(player) && unchanged(player.surface)
      ensures width != old(player.surface.width) || height != old(player.surface.height) ==>
        player.surface.buffer == seq(width * height, _ => Black) &&
        prevBuffer == seq(width * height, _ => Sentinel) && !svgCreated &&
        player.surface.width == width && player.surface.height == height && player.surface.extendedWidth == width &&
        fresh(player.manager) && player.manager.tick == 0
      ensures (width != old(player.surface.width) || height != old(player.surface.height)) && old(player.effect) == "fixed" ==>
        player.manager.currentEffect == "fixed" && player.manager.data == Effects.TextData(TextEffects.Plain)
      ensures (width != old(player.surface.width) || height != old(player.surface.height)) && old(player.effect) != "fixed" ==>
        player.manager.currentEffect == old(player.effect) && player.manager.options == Options(Some(player.speed), None) &&
        Effects.Started(old(player.effect), Options(Some(player.speed), None), player.manager.data, width, height, host)
    {
      var resized := player.SetDimensions(width, height, host);
      if resized {
        prevBuffer := FreshPrevBuffer(width * height);
        svgCreated := false;
      }
    }

    /** destroy: stops the loop and drops the <rect>s; a second call finds
        nothing more to do. */
    method Destroy()
      requires Valid()
      modifies this, player
      ensures Valid() && !player.running && !player.frameRequested && rects == [] && !svgCreated
      ensures prevBuffer == old(prevBuffer) && unchanged(player.surface)
      ensures player.effect == old(player.effect) && player.speed == old(player.speed)
      ensures player.manager == old(player.manager) && player.lastFrameTime == old(player.lastFrameTime)
      ensures player.colorPixels == old(player.colorPixels) && player.extendedColorPixels == old(player.extendedColorPixels)
    {
      player.Stop();
      rects := [];
      svgCreated := false;
    }
  }

  // ---------------------------------------------------------------------
  // createPixelSvg

  /** One <rect> of the markup: its position and size in the 100-wide view
      box, its fill and whether it glows. */
  datatype SvgRect = SvgRect(x: real, y: real, size: real, fill: string, glow: bool)

  /** The colour names that count as off and get no drop shadow. */
  predicate Dark(color: string)
  {
    color == "#111" || color == "#000" || color == "#1a1a1a" || color == "#050505"
  }

  /** The <rect> for cell (x, y). */
  function PixelRect(width: nat, pixels: seq<string>, pixelGap: real, x: nat, y: nat): SvgRect
  {
    var pxWidth := if width == 0 then 0.0 else 100.0 / width as real;
    var i := y * width + x;
    var color := if i < |pixels| && pixels[i] != "" then pixels[i] else "#111";
    SvgRect(x as real * pxWidth, y as real * pxWidth, pxWidth - pixelGap * 0.1, color, !Dark(color))
  }

  /** The <rect> at position i of the markup: cell (i % width, i / width). */
  function PixelRectAt(width: nat, pixels: seq<string>, pixelGap: real, i: nat): SvgRect
    requires width > 0
  {
    PixelRect(width, pixels, pixelGap, i % width, i / width)
  }

  /** createPixelSvg: the <rect>s of every cell, row by row, so that the
      i-th is cell (i % width, i / width); CellOrder reads it back per cell. */
  method CreatePixelSvg(width: nat, height: nat, pixels: seq<string>, pixelGap: real) returns (rects: seq<SvgRect>)
    ensures |rects| == width * height
    ensures width > 0 ==> forall i :: 0 <= i < |rects| ==> rects[i] == PixelRectAt(width, pixels, pixelGap, i)
  {
    rects := [];
    var y := 0;
    while y < height
      invariant 0 <= y <= height && |rects| == y * width
      invariant width > 0 ==> forall i :: 0 <= i < |rects| ==> rects[i] == PixelRectAt(width, pixels, pixelGap, i)
    {
      var x := 0;
      while x < width
        invariant 0 <= x <= width && |rects| == y * width + x
        invariant width > 0 ==> forall i :: 0 <= i < |rects| ==> rects[i] == PixelRectAt(width, pixels, pixelGap, i)
      {
        Grid.DivModUnique(y * width + x, width, y, x);
        rects := rects + [PixelRect(width, pixels, pixelGap, x, y)];
        x := x + 1;
      }
      Grid.NextRow(y, width);
      y := y + 1;
    }
  }

  /** Cell (x, y) is the (y * width + x)-th <rect> of the markup. */
  lemma CellOrder(width: nat, height: nat, pixels: seq<string>, pixelGap: real, x: int, y: int)
    requires 0 <= x < width && 0 <= y < height
    ensures 0 <= y * width + x < width * height
    ensures PixelRectAt(width, pixels, pixelGap, y * width + x) == PixelRect(width, pixels, pixelGap, x, y)
  {
    Grid.CellIndex(width, height, x, y);
  }

  /** A cell glows exactly when its colour is given and none of the four
      dark names; a missing or empty entry is drawn as dark #111. */
  lemma PixelRectGlow(width: nat, pixels: seq<string>, pixelGap: real, x: nat, y: nat)
    ensures var r := PixelRect(width, pixels, pixelGap, x, y);
      var i := y * width + x;
      (r.glow <==> i < |pixels| && pixels[i] != "" && !Dark(pixels[i])) &&
      (i >= |pixels| || pixels[i] == "" ==> r.fill == "#111")
  {
  }
}
