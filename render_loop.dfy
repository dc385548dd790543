// The lifecycle all three renderer backends share, written out identically
// in src/core/renderers/imagedata-renderer.ts, canvas-renderer.ts and
// svg-renderer.ts: the text grids handed over by setData, the current effect
// and speed, the running flag and frame clock of the animation loop, the
// resize that rebuilds the buffer and the effect manager, and destroy. Each
// backend holds one Player and adds its own flush.
module RenderLoop {
  import opened Types
  import opened Surface
  import Effects
  import TextEffects

  /** The time between effect steps at a speed: 500 ms at speed 1, 4.7 ms
      less for each speed step above. */
  function FrameInterval(speed: real): real
  {
    500.0 - (speed - 1.0) * 4.7
  }

  /** The options `setEffect` hands to initEffect: `{speed, ...options}`, so
      a speed among the options wins. */
  function Merged(speed: real, options: Option<Options>): (o: Options)
    ensures options.None? ==> o == Options(Some(speed), None)
    ensures options.Some? && options.value.speed.Some? ==> o.speed == options.value.speed
    ensures options.Some? && options.value.speed.None? ==> o.speed == Some(speed)
    ensures options.Some? ==> o.fgColor == options.value.fgColor
  {
    match options
    case None => Options(Some(speed), None)
    case Some(opts) => Options(if opts.speed.Some? then opts.speed else Some(speed), opts.fgColor)
  }

  /** The `extendedWidth || width` rule of setData. */
  function ScrollWidth(extendedWidth: Option<nat>, width: nat): (w: nat)
    ensures extendedWidth.Some? && extendedWidth.value > 0 ==> w == extendedWidth.value
    ensures extendedWidth.None? || extendedWidth.value == 0 ==> w == width
  {
    if extendedWidth.Some? && extendedWidth.value > 0 then extendedWidth.value else width
  }

  class Player {
    /** The renderer as the effects see it: size, scroll width and buffer. */
    const surface: LedSurface
    var colorPixels: seq<string>
    var extendedColorPixels: seq<string>
    var effect: string
    var speed: real
    var lastFrameTime: real
    var running: bool
    /** Whether a next animation frame is requested (animationId is set). */
    var frameRequested: bool
    var manager: Effects.EffectManager

    ghost predicate Valid()
      reads this, surface, manager
    {
      surface.Valid() && manager.renderer == surface && manager.Valid()
    }

    /** The shared part of every backend constructor: the `fixed` effect at
        the backend's default speed, stopped, with empty grids and a fresh
        effect manager over the renderer. */
    constructor (surface: LedSurface, defaultSpeed: real)
      requires surface.Valid()
      ensures Valid() && this.surface == surface && fresh(manager)
      ensures effect == "fixed" && speed == defaultSpeed && !running && !frameRequested && lastFrameTime == 0.0
      ensures colorPixels == [] && extendedColorPixels == []
      ensures manager.currentEffect == "fixed" && manager.tick == 0
    {
      this.surface := surface;
      colorPixels := [];
      extendedColorPixels := [];
      effect := "fixed";
      speed := defaultSpeed;
      lastFrameTime := 0.0;
      running := false;
      frameRequested := false;
      manager := new Effects.EffectManager(surface);
    }

    /** setData: the display grid, and the scroll source with its width; with
        no scroll source the display grid serves as one, as wide as the display. */
    method SetData(pixels: seq<string>, extendedPixels: Option<seq<string>>, extendedWidth: Option<nat>)
      requires Valid()
      modifies this, surface`extendedWidth
      ensures Valid() && unchanged(surface`buffer) && manager == old(manager)
      ensures colorPixels == pixels
      ensures extendedPixels.Some? ==>
        extendedColorPixels == extendedPixels.value && surface.extendedWidth == ScrollWidth(extendedWidth, surface.width)
      ensures extendedPixels.None? ==> extendedColorPixels == pixels && surface.extendedWidth == surface.width
      ensures effect == old(effect) && speed == old(speed) && running == old(running)
      ensures lastFrameTime == old(lastFrameTime) && frameRequested == old(frameRequested)
    {
      colorPixels := pixels;
      if extendedPixels.Some? {
        extendedColorPixels := extendedPixels.value;
        surface.extendedWidth := ScrollWidth(extendedWidth, surface.width);
      } else {
        extendedColorPixels := pixels;
        surface.extendedWidth := surface.width;
      }
    }

    /** setEffect: re-initialises the manager when the name changes (or, on
        the canvas backend, whenever options are given) and always records
        the speed. The restart it asks for when the loop was running is a
        no-op, since start returns at once while running. */
    method SetEffect(name: string, newSpeed: real, options: Option<Options>, host: Host)
      requires Valid() && host.Valid()
      modifies this, manager
      ensures Valid() && manager == old(manager) && unchanged(surface)
      ensures effect == name && speed == newSpeed && running == old(running)
      ensures lastFrameTime == old(lastFrameTime) && frameRequested == old(frameRequested)
      ensures colorPixels == old(colorPixels) && extendedColorPixels == old(extendedColorPixels)
      ensures old(effect) != name || options.Some? ==>
        manager.currentEffect == name && manager.tick == 0 && manager.options == Merged(newSpeed, options) &&
        Effects.Started(name, Merged(newSpeed, options), manager.data, surface.width, surface.height, host)
      ensures old(effect) == name && options.None? ==>
        manager.currentEffect == old(manager.currentEffect) && manager.tick == old(manager.tick) &&
        manager.data == old(manager.data) && manager.options == old(manager.options)
    {
      if effect != name || options.Some? {
        effect := name;
        manager.InitEffect(name, Merged(newSpeed, options), host);
      }
      speed := newSpeed;
    }

    /** start: a no-op while running; otherwise sets the flag and restarts the
        frame clock. Whether the backend then runs its first animation tick
        is the result. */
    method Start(now: real) returns (begun: bool)
      modifies this
      ensures begun <==> !old(running)
      ensures running
      ensures begun ==> lastFrameTime == now
      ensures !begun ==> unchanged(this)
      ensures effect == old(effect) && speed == old(speed) && manager == old(manager)
      ensures frameRequested == old(frameRequested)
      ensures colorPixels == old(colorPixels) && extendedColorPixels == old(extendedColorPixels)
    {
      if running {
        begun := false;
        return;
      }
      running := true;
      lastFrameTime := now;
      begun := true;
    }

    /** stop: clears the running flag and cancels the requested frame. */
    method Stop()
      modifies this
      ensures !running && !frameRequested
      ensures effect == old(effect) && speed == old(speed) && manager == old(manager)
      ensures lastFrameTime == old(lastFrameTime)
      ensures colorPixels == old(colorPixels) && extendedColorPixels == old(extendedColorPixels)
    {
      running := false;
      frameRequested := false;
    }

    /** What a tick of _animate at time `now` that rendered has done: the
        next frame is requested; when a frame interval had passed since the
        last step the clock moved to `now`, the tick went up by one and the
        effect stepped, otherwise clock, tick and state record are as they
        were; and the buffer holds the frame of the current state. */
    twostate predicate Ticked(now: real, host: Host)
      requires host.Valid()
      reads this, manager, surface
    {
      var stepped := now - old(lastFrameTime) >= FrameInterval(speed);
      frameRequested &&
      (stepped ==>
        lastFrameTime == now && manager.tick == old(manager.tick) + 1 &&
        Effects.StepsTo(old(manager.data), manager.data, manager.tick, surface.width, surface.height,
                        surface.extendedWidth, host)) &&
      (!stepped ==>
        lastFrameTime == old(lastFrameTime) && manager.tick == old(manager.tick) && manager.data == old(manager.data)) &&
      |old(surface.buffer)| == surface.width * surface.height &&
      surface.buffer == Effects.Frame(manager.data, manager.tick, colorPixels, extendedColorPixels,
                                      surface.extendedWidth, surface.width, surface.height, host, old(surface.buffer))
    }

    /** What a start from a stopped loop at time `now` has done once its
        first tick ran: the loop runs, the clock reads `now` and the next
        frame is requested; the effect stepped in that tick only if the frame
        interval is not positive (the clock was just reset), and the buffer
        holds the frame of the current state. */
    twostate predicate Began(now: real, host: Host)
      requires host.Valid()
      reads this, manager, surface
    {
      var stepped := FrameInterval(speed) <= 0.0;
      running && lastFrameTime == now && frameRequested &&
      (stepped ==>
        manager.tick == old(manager.tick) + 1 &&
        Effects.StepsTo(old(manager.data), manager.data, manager.tick, surface.width, surface.height,
                        surface.extendedWidth, host)) &&
      (!stepped ==> manager.tick == old(manager.tick) && manager.data == old(manager.data)) &&
      |old(surface.buffer)| == surface.width * surface.height &&
      surface.buffer == Effects.Frame(manager.data, manager.tick, colorPixels, extendedColorPixels,
                                      surface.extendedWidth, surface.width, surface.height, host, old(surface.buffer))
    }

    /** One tick of _animate at time `now`, up to the backend's flush: nothing
        when stopped; otherwise the effect steps once if a frame interval has
        passed since the last step, the frame is rendered, and the next tick
        is requested. Whether the backend must flush is the result. */
    method Animate(now: real, host: Host) returns (rendered: bool)
      requires Valid() && host.Valid()
      modifies this, manager, surface`buffer
      ensures Valid() && manager == old(manager)
      ensures rendered == old(running)
      ensures !rendered ==> unchanged(this) && unchanged(manager) && unchanged(surface)
      ensures rendered ==> Ticked(now, host)
      ensures manager.currentEffect == old(manager.currentEffect)
      ensures effect == old(effect) && speed == old(speed) && running == old(running)
      ensures colorPixels == old(colorPixels) && extendedColorPixels == old(extendedColorPixels)
    {
      if !running {
        rendered := false;
        return;
      }
      if now - lastFrameTime >= FrameInterval(speed) {
        lastFrameTime := now;
        manager.Step(host);
      }
      RenderFrame(host);
      frameRequested := true;
      rendered := true;
    }

    /** _renderFrame up to the flush: the manager draws the current effect
        into the buffer from the stored grids. */
    method RenderFrame(host: Host)
      requires Valid()
      modifies surface`buffer
      ensures Valid() && unchanged(manager)
      ensures surface.buffer == Effects.Frame(manager.data, manager.tick, colorPixels, extendedColorPixels,
                                              surface.extendedWidth, surface.width, surface.height, host,
                                              old(surface.buffer))
    {
      manager.Render(colorPixels, extendedColorPixels, surface.extendedWidth, host);
    }

    /** setDimensions: nothing for the same size; otherwise the renderer takes
        the new size, its scroll width and a black buffer, and a fresh manager
        replaces the old one, initialised with the current effect and speed
        unless that effect is `fixed`. */
    method SetDimensions(width: nat, height: nat, host: Host) returns (resized: bool)
      requires Valid() && host.Valid()
      modifies this, surface
      ensures Valid()
      ensures resized <==> width != old(surface.width) || height != old(surface.height)
      ensures !resized ==> unchanged(this) && unchanged(surface)
      ensures resized ==>
        surface.width == width && surface.height == height && surface.extendedWidth == width &&
        surface.buffer == seq(width * height, _ => Black) && fresh(manager)
      ensures resized && old(effect) == "fixed" ==>
        manager.currentEffect == "fixed" && manager.tick == 0 && manager.data == Effects.TextData(TextEffects.Plain)
      ensures resized && old(effect) != "fixed" ==>
        manager.currentEffect == old(effect) && manager.tick == 0 && manager.options == Options(Some(speed), None) &&
        Effects.Started(old(effect), Options(Some(speed), None), manager.data, width, height, host)
      ensures effect == old(effect) && speed == old(speed) && running == old(running)
      ensures lastFrameTime == old(lastFrameTime) && frameRequested == old(frameRequested)
      ensures colorPixels == old(colorPixels) && extendedColorPixels == old(extendedColorPixels)
    {
      if width == surface.width && height == surface.height {
        resized := false;
        return;
      }
      surface.width := width;
      surface.height := height;
      surface.extendedWidth := width;
      surface.InitBuffer();
      manager := NewManager(host);
      resized := true;
    }

    /** The manager a resize installs: fresh over the renderer, and
        initialised with the current effect and speed unless that is `fixed`. */
    method NewManager(host: Host) returns (m: Effects.EffectManager)
      requires surface.Valid() && host.Valid()
      ensures fresh(m) && m.renderer == surface && m.Valid()
      ensures effect == "fixed" ==> m.currentEffect == "fixed" && m.tick == 0 && m.data == Effects.TextData(TextEffects.Plain)
      ensures effect != "fixed" ==>
        m.currentEffect == effect && m.tick == 0 && m.options == Options(Some(speed), None) &&
        Effects.Started(effect, Options(Some(speed), None), m.data, surface.width, surface.height, host)
    {
      m := new Effects.EffectManager(surface);
      if effect != "fixed" {
        m.InitEffect(effect, Options(Some(speed), None), host);
      }
    }
  }

  /** The frame interval shrinks as the speed grows: a faster effect steps
      at least as often. */
  lemma FasterStepsSooner(s1: real, s2: real)
    requires s1 <= s2
    ensures FrameInterval(s2) <= FrameInterval(s1)
  {
  }
}
