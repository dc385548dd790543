# react-pixel-display, modelled in Dafny

react-pixel-display draws an LED matrix panel in the browser. A panel is a
`width` by `height` grid of colours. An **effect engine** animates that grid.
Three **renderer backends** keep a flat, row-major colour buffer and paint it:
a canvas of rounded squares, an RGBA bitmap blitted through a per-LED coverage
template, or an SVG of `<rect>` elements with change detection. A **font layer**
turns text into the grid the effects read, either from BDF glyph bitmaps or
from a canvas-drawn TrueType font thresholded to two colours.

This project models the core of that library and proves properties of it:

- **Colour parsing and HSV conversion** (`Utils`): `hexToRgb` with its sentinel
  short cuts, `hexToRgbObj` and `hsvToRgb`, on exact reals.
- **The effect catalogue and `EffectManager`** (`Effects`): lookup with the
  `fixed` fallback, the three category lists, and a manager class that owns
  `tick` and the effect state and dispatches `init`, `step` and `render`.
- **The text effects** (`TextEffects`): one state variant per effect, with the
  step's wrap and bounce rules, sampling of the source grid, the per-cell
  reveal predicates and modulation of lit cells.
- **The colour effects** (`ColorEffects`): `color_cycle`, `rainbow_text` and
  `neon`.
- **The ambient effects** (`AmbientEffects`, with one module per simulation:
  `Matrix`, `Fire`, `Water`, `Stars`, `Confetti`, `Fireworks`, `RainStorm`,
  `Munch`, `Bouncing`). These model the discrete and bounded parts of each
  simulation: buffers, counters, particle lists, palettes and clamps.
- **The renderers** (`Surface`, `RenderLoop`, `CanvasRenderer`,
  `BitmapRenderer`, `SvgRenderer`):
  - the shared pixel buffer (`setPixel`, `clear`);
  - the shared play loop (`setData`, `setEffect`, `start`, `stop`, the
    animation tick, `setDimensions`, `destroy`);
  - each backend's own `flush`: the canvas geometry, the bitmap template and
    blit, and the SVG change detection with `createPixelSvg`.
- **The fonts** (`FontCommon`, `BdfFont`, `CanvasFont`, `FontConfig`):
  - height bucketing;
  - the default URL resolvers;
  - centring and clipping glyph bitmaps into the grid;
  - the extended width of scroll grids;
  - the grey threshold;
  - `configureFonts` and the URLs it builds.

Numbers are exact `real`s or unbounded integers. JavaScript's truncating `%`
is written out in `JsMath`. The engine gets its randomness, `Math.sin`,
`Math.cos` and its purely trigonometric colour fields from a `Types.Host`
value:

- `Math.random()` becomes a sequence of draws in [0, 1). Each operation states
  which draws it consumes, except the burst loop inside `Fireworks.Step`
  (see "Left out").
- `sin` and `cos` become functions bounded to [-1, 1].
- The closed-form colour fields become one function of effect name, time and
  cell.

Each renderer backend is a class that holds:

- a `Surface.LedSurface`, the buffer and its `setPixel` and `clear`, which all
  three backends share;
- a `RenderLoop.Player`, the play loop all three duplicate;
- its own fields for `flush`.

Each step of an ambient simulation whose source mutates arrays in a loop is a
method. The method is proved against a function that states the whole next
state.

## Model

| member | source | states |
|---|---|---|
| Utils.PairValue | src/core/utils.ts:13 | `parseInt` of a two-digit hex pair is a byte, at most 255 |
| Utils.HexDigits | src/core/utils.ts:11 | the colour pattern matches exactly six hex digits, optionally after one '#', and captures those six digits |
| Utils.PairsToRgb | src/core/utils.ts:12-13 | the three captured pairs give a colour with every channel in [0, 255] |
| Utils.HexToRgb | src/core/utils.ts:7-15 | every string, well-formed or not, reads as a colour with every channel in [0, 255] |
| Utils.HexToRgbObj | src/core/utils.ts:20-29 | every string reads as a colour with every channel in [0, 255] |
| Utils.HexCharValue | src/core/utils.ts:13 | formatting a value below 16 as a hex digit and parsing it gives the value back |
| Utils.ValueHexChar | src/core/utils.ts:13 | parsing a hex digit and formatting it again gives the digit in lower case |
| Utils.PairRoundTrip | src/core/utils.ts:13 | formatting a byte as two hex digits and parsing the pair gives the byte back |
| Utils.HexToRgbRoundTrip | src/core/utils.ts:7-29 | for every colour with integer channels in [0, 255], `#rrggbb` parsed by either parser gives the colour again, the '#050505' short cut included |
| Utils.SentinelSpellsFive | src/core/utils.ts:9 | the only byte spelled "05" is 5, so the '#050505' short cut agrees with the general parse |
| Utils.PairToHex | src/core/utils.ts:13 | a parsed pair formatted again is the pair in lower case |
| Utils.RgbToHexRoundTrip | src/core/utils.ts:11-14 | parsing a well-formed colour and formatting it back loses nothing but letter case |
| Utils.Sentinels | src/core/utils.ts:7-29 | hexToRgb reads '', '#111' and '#000' as (17, 17, 17) and '#050505' as (5, 5, 5); hexToRgbObj reads '#000' and '#111' as black |
| Utils.ParsersAgree | src/core/utils.ts:7-29 | outside the sentinels the two parsers agree on every well-formed string; on a malformed one hexToRgb gives (17, 17, 17) and hexToRgbObj black |
| Utils.SectorInUnit | src/core/utils.ts:39-52 | for hue at least 0 and saturation and value in [0, 1], the triple the sector picks has every channel in [0, 1] |
| Utils.HsvInRange | src/core/utils.ts:37-55 | for hue at least 0 and saturation and value in [0, 1], every channel lies in [0, 255] |
| Utils.HsvGrey | src/core/utils.ts:41-54 | zero saturation gives grey at 255 times the value, whatever the hue |
| Utils.HsvNegativeSector | src/core/utils.ts:39-52 | a hue in [-5/6, 0) gives a negative sector that matches no case, so the colour stays black |
| Utils.HsvRed | src/core/utils.ts:37-55 | hue 0 at full saturation and value is pure red |
| Utils.HsvRedWraps | src/core/utils.ts:39-46 | hue 1 is sector 6, which `% 6` wraps to sector 0: red again |
| Utils.HsvGreen | src/core/utils.ts:37-55 | hue 1/3 at full saturation and value is pure green |
| Utils.HsvBlack | src/core/utils.ts:41-54 | value 0 is black whatever the hue and saturation |
| Surface.WithPixelEffect | src/core/renderers/canvas-renderer.ts:122-129 | on a buffer of width * height cells the `idx < length` guard never fires: an in-grid cell is written and anything else dropped |
| Surface.StampAllKeeps | src/core/effects/ambient-effects.ts:485-492 | a cell that no overlay dot addresses keeps its colour |
| Surface.StampAllLast | src/core/effects/ambient-effects.ts:485-492 | the last overlay dot that addresses a cell decides its colour |
| Surface.LedSurface.constructor | src/core/renderers/canvas-renderer.ts:32-41 | a new surface is width by height black cells and its scroll source is as wide as the display |
| Surface.LedSurface.InitBuffer | src/core/renderers/canvas-renderer.ts:56-61 | `_initBuffer` leaves exactly width * height black cells |
| Surface.LedSurface.SetPixel | src/core/renderers/canvas-renderer.ts:122-129 | setPixel changes exactly the addressed cell when it is in the grid, and nothing otherwise |
| Surface.LedSurface.Clear | src/core/renderers/canvas-renderer.ts:131-135 | clear makes every cell black and keeps the length |
| Surface.LedSurface.PaintAll | src/core/effects/ambient-effects.ts:279-285 | the nested setPixel loop of a render writes every cell exactly once, with the colour the effect gives its (x, y) |
| Surface.LedSurface.Stamp | src/core/effects/ambient-effects.ts:485-492 | the overlay loop leaves the buffer as stamping the dots one after another does |
| PixelGeometry.Gap | src/core/renderers/canvas-renderer.ts:147 | the gap between LEDs is at least one pixel |
| PixelGeometry.PixelSize | src/core/renderers/canvas-renderer.ts:148 | the lit square is narrower than the LED's block |
| PixelGeometry.CornerRadius | src/core/renderers/canvas-renderer.ts:149 | the corner radius is 1, or at most 15% of the scale |
| PixelGeometry.DefaultGeometry | src/core/renderers/canvas-renderer.ts:147-149 | with scale 8 and gap 0.15 each LED is a 7-pixel square with a one-pixel gap and one-pixel corners |
| PixelGeometry.BlocksSeparate | src/core/renderers/canvas-renderer.ts:161-165 | the lit square of one LED column ends before the next column's block begins, so neighbouring LEDs never touch |
| RenderLoop.Merged | src/core/renderers/canvas-renderer.ts:204 | `{speed, ...options}`: without options only the speed; a speed among the options wins over the argument; the colour is the options' |
| RenderLoop.ScrollWidth | src/core/renderers/canvas-renderer.ts:193 | `extendedWidth \|\| width`: a given non-zero scroll width, else the display width |
| RenderLoop.Player.constructor | src/core/renderers/canvas-renderer.ts:39-53 | a new backend shows `fixed` at its default speed, stopped, with empty grids and a fresh manager at tick 0 over its own renderer |
| RenderLoop.Player.SetData | src/core/renderers/canvas-renderer.ts:189-198 | setData stores the display grid, and the scroll source with `extendedWidth \|\| width`, or the display grid at display width when no scroll source is given; nothing else changes |
| RenderLoop.Player.SetEffect | src/core/renderers/canvas-renderer.ts:200-210 | setEffect records the name and speed; it re-initialises the manager exactly when the name changes or options are given, leaving it at tick 0 with the merged options and the name's category starting state, and otherwise leaves it alone; the running state is kept |
| RenderLoop.Player.Start | src/core/renderers/canvas-renderer.ts:212-217 | start begins a tick exactly when the loop was not running, restarting the frame clock then; afterwards the loop runs, and a start while running changes nothing |
| RenderLoop.Player.Stop | src/core/renderers/canvas-renderer.ts:219-225 | stop clears the running flag and the pending frame and changes nothing else |
| RenderLoop.Player.Animate | src/core/renderers/canvas-renderer.ts:231-241 | a stopped loop changes nothing; a running one requests the next frame, steps the effect (tick + 1, state advanced by the category module) exactly when a frame interval has passed, recording the time, otherwise keeps clock, tick and state, and leaves the buffer holding the frame of the resulting state |
| RenderLoop.Player.RenderFrame | src/core/renderers/canvas-renderer.ts:243-246 | _renderFrame leaves the manager as it was and fills the buffer with the frame of the current effect: the ambient picture, or every cell coloured from the stored text or colour grids |
| RenderLoop.Player.SetDimensions | src/core/renderers/canvas-renderer.ts:253-265 | the same size changes nothing; a new size gives the new size, scroll width and a black buffer and a fresh manager at tick 0, holding the current effect's category starting state at the new size and speed, or the plain `fixed` state when the effect is `fixed` |
| RenderLoop.Player.NewManager | src/core/renderers/canvas-renderer.ts:260-263 | the manager a resize installs is fresh over the renderer at tick 0, holding the current effect's category starting state, or the plain `fixed` state when the effect is `fixed` |
| RenderLoop.FasterStepsSooner | src/core/renderers/canvas-renderer.ts:234 | the frame interval shrinks as the speed grows |
| CanvasRenderer.DrawLeds | src/core/renderers/canvas-renderer.ts:154-167 | the flush loops draw width * height squares, the i-th that of LED (i % width, i / width) in its rounded colour |
| CanvasRenderer.SquareOfLed | src/core/renderers/canvas-renderer.ts:156-165 | LED (x, y) is the (y * width + x)-th square, drawn at its block in its own colour |
| CanvasRenderer.SquaresApart | src/core/renderers/canvas-renderer.ts:161-165 | two squares of one row never overlap |
| CanvasRenderer.CanvasLedRenderer.constructor | src/core/renderers/canvas-renderer.ts:28-54 | the defaults 64 by 16, gap 0.15, glow on and scale 8 apply when an option is missing or zero, glow is off only for an explicit false; the buffer is black and the loop stopped at speed 100 |
| CanvasRenderer.CanvasLedRenderer.CreateCanvas | src/core/renderers/canvas-renderer.ts:63-109 | the canvas is blank at width * scale by height * scale pixels, and the glow canvas exists exactly when glow is enabled |
| CanvasRenderer.CanvasLedRenderer.Flush | src/core/renderers/canvas-renderer.ts:137-172 | flush creates the canvas on first use, gives every LED exactly the square of its buffer colour at its place, and makes the glow canvas mirror it exactly when glow is enabled |
| CanvasRenderer.CanvasLedRenderer.SetPixel | src/core/renderers/canvas-renderer.ts:122-129 | setPixel changes exactly the addressed in-grid cell |
| CanvasRenderer.CanvasLedRenderer.Clear | src/core/renderers/canvas-renderer.ts:131-135 | clear makes every cell black |
| CanvasRenderer.CanvasLedRenderer.RenderFrame | src/core/renderers/canvas-renderer.ts:243-246 | a frame leaves the manager as it was, puts the frame of the current effect in the buffer and shows one square per cell in that colour |
| CanvasRenderer.CanvasLedRenderer.RenderStatic | src/core/renderers/canvas-renderer.ts:248-251 | renderStatic shows the frame of the current effect, square by square, without starting the loop or touching the manager |
| CanvasRenderer.CanvasLedRenderer.Animate | src/core/renderers/canvas-renderer.ts:231-241 | a tick of a running loop steps and renders exactly as the render loop does and ends with every square showing the new buffer; a stopped loop changes nothing in the backend, the player, the manager or the buffer |
| CanvasRenderer.CanvasLedRenderer.Start | src/core/renderers/canvas-renderer.ts:212-217 | a start while running changes nothing; from stopped it restarts the clock at `now`, runs the first tick (a step only when the frame interval is not positive), requests the next frame and shows the current frame square by square |
| CanvasRenderer.CanvasLedRenderer.SetDimensions | src/core/renderers/canvas-renderer.ts:253-265 | the same size changes nothing; a new size gives the new size and scroll width, a black buffer, a fresh manager at tick 0 in the current effect's starting state, and a canvas recreated at the next flush |
| CanvasRenderer.CanvasLedRenderer.Destroy | src/core/renderers/canvas-renderer.ts:277-285 | destroy stops the loop and drops both canvases, leaving the buffer, the effect, speed, manager, clock and stored grids alone |
| BitmapRenderer.CreatePixelTemplate | src/core/renderers/imagedata-renderer.ts:117-154 | the template has scale * scale entries, row by row, entry py * scale + px set exactly when sub-pixel (px, py) lies in the rounded square |
| BitmapRenderer.GapIsDark | src/core/renderers/imagedata-renderer.ts:119-129 | every sub-pixel right of or below the lit square of size scale - gap is dark |
| BitmapRenderer.CornerIsDark | src/core/renderers/imagedata-renderer.ts:121-133 | the corner rounding always cuts off the block's top-left sub-pixel |
| BitmapRenderer.CentreIsLit | src/core/renderers/imagedata-renderer.ts:129-148 | sub-pixels of the square outside the four corner regions are all lit |
| BitmapRenderer.TemplateMirror | src/core/renderers/imagedata-renderer.ts:129-145 | when the square is at least two radii wide, the template row is its own mirror image: the right corners reflect the left ones |
| BitmapRenderer.Decompose | src/core/renderers/imagedata-renderer.ts:220-226 | the canvas index of sub-pixel (px, py) of LED (x, y) lies in the image and decomposes back into that LED and that template entry |
| BitmapRenderer.Injective | src/core/renderers/imagedata-renderer.ts:225-226 | two canvas pixels with the same LED and the same template entry are the same pixel, so the blocks of different LEDs never overlap |
| BitmapRenderer.LedCoordinates | src/core/renderers/imagedata-renderer.ts:220-226 | every canvas pixel is the sub-pixel of exactly one LED block, whose coordinates rebuild its index |
| BitmapRenderer.Bounds | src/core/renderers/imagedata-renderer.ts:210-226 | every canvas pixel belongs to an LED of the buffer and a template entry |
| BitmapRenderer.LedBytes | src/core/renderers/imagedata-renderer.ts:216-232 | a lit pixel's bytes are four values in 0..255, fully opaque |
| BitmapRenderer.PutPixel | src/core/renderers/imagedata-renderer.ts:229-237 | the four stores change exactly the addressed pixel's bytes |
| BitmapRenderer.FillBackground | src/core/renderers/imagedata-renderer.ts:156-167 | _fillBackground makes every pixel opaque (10, 10, 10) |
| BitmapRenderer.PaintSubPixel | src/core/renderers/imagedata-renderer.ts:225-238 | one innermost step paints the next sub-pixel of the block with the LED's bytes or the background as the template says, leaving every other pixel alone |
| BitmapRenderer.FillBlock | src/core/renderers/imagedata-renderer.ts:220-240 | the two inner loops give every pixel of LED (x, y)'s block its final bytes and leave all other canvas pixels unchanged |
| BitmapRenderer.FillImage | src/core/renderers/imagedata-renderer.ts:210-242 | after the four loops every canvas pixel holds its LED's clamped colour where the template is set and the background elsewhere |
| BitmapRenderer.LedPixel | src/core/renderers/imagedata-renderer.ts:210-242 | read per LED: sub-pixel (px, py) of LED (x, y) shows that LED's colour exactly when it lies in the rounded square |
| BitmapRenderer.BitmapLedRenderer.constructor | src/core/renderers/imagedata-renderer.ts:30-58 | the defaults 64 by 16, gap 0.15, glow on and scale 8 apply when an option is missing or zero, glow is off only for an explicit false; the buffer is black, speed 100, no canvas |
| BitmapRenderer.BitmapLedRenderer.CreateCanvas | src/core/renderers/imagedata-renderer.ts:67-115 | _createCanvas gives a fresh image of the canvas's size, builds the template and fills every pixel with the background |
| BitmapRenderer.BitmapLedRenderer.Flush | src/core/renderers/imagedata-renderer.ts:195-249 | flush creates the canvas on first use, sets every image pixel to the LED colour of its cell, shows exactly that image and mirrors it onto the glow canvas exactly when glow is enabled |
| BitmapRenderer.BitmapLedRenderer.SetPixel | src/core/renderers/imagedata-renderer.ts:180-187 | setPixel changes exactly the addressed in-grid cell |
| BitmapRenderer.BitmapLedRenderer.Clear | src/core/renderers/imagedata-renderer.ts:189-193 | clear makes every cell black |
| BitmapRenderer.BitmapLedRenderer.RenderFrame | src/core/renderers/imagedata-renderer.ts:305-308 | a frame leaves the manager as it was, puts the frame of the current effect in the buffer and shows the image painted from it |
| BitmapRenderer.BitmapLedRenderer.RenderStatic | src/core/renderers/imagedata-renderer.ts:310-313 | renderStatic shows the image of the current frame without starting the loop or touching the manager |
| BitmapRenderer.BitmapLedRenderer.Animate | src/core/renderers/imagedata-renderer.ts:293-303 | a tick of a running loop steps and renders exactly as the render loop does and ends with the image painted from the new buffer; a stopped loop changes nothing in the backend, the image, the player, the manager or the buffer |
| BitmapRenderer.BitmapLedRenderer.Start | src/core/renderers/imagedata-renderer.ts:274-279 | a start while running changes nothing; from stopped it restarts the clock at `now`, runs the first tick (a step only when the frame interval is not positive), requests the next frame and shows the image painted from the current frame |
| BitmapRenderer.BitmapLedRenderer.SetDimensions | src/core/renderers/imagedata-renderer.ts:315-327 | the same size changes nothing; a new size gives the new size and scroll width, a black buffer, a fresh manager at tick 0 in the current effect's starting state, and marks the canvas for recreation |
| BitmapRenderer.BitmapLedRenderer.Destroy | src/core/renderers/imagedata-renderer.ts:339-349 | destroy stops the loop and drops the image, template and glow canvas, leaving the buffer, the effect, speed, manager, clock and stored grids alone |
| SvgRenderer.ChangedUpTo | src/core/renderers/svg-renderer.ts:130-143 | the cells flush repaints among the first n are exactly those whose colour differs from the painted one, listed in index order |
| SvgRenderer.FlushIdempotent | src/core/renderers/svg-renderer.ts:143-155 | once a flush has recorded the buffer, a second flush with no write in between repaints nothing |
| SvgRenderer.FirstFlushRepaintsAll | src/core/renderers/svg-renderer.ts:48-55 | the [-1, -1, -1] sentinel of _initBuffer differs from every real colour, so the first flush repaints every cell in order |
| SvgRenderer.FreshPrevBuffer | src/core/renderers/svg-renderer.ts:48-55 | _initBuffer's prevBuffer is one sentinel per cell |
| SvgRenderer.FreshRects | src/core/renderers/svg-renderer.ts:74-86 | _createSvg makes one grey rgb(17, 17, 17) <rect> per cell |
| SvgRenderer.RepaintCell | src/core/renderers/svg-renderer.ts:131-155 | one pass of the flush loop repaints and records cell i exactly when its colour differs from the painted one, leaving the other cells alone |
| SvgRenderer.Repaint | src/core/renderers/svg-renderer.ts:130-156 | the flush loop leaves prevBuffer equal to the buffer, repaints exactly the changed cells with their rounded colour and a drop shadow when lit, and keeps the rest of the <rect>s |
| SvgRenderer.SvgLedRenderer.constructor | src/core/renderers/svg-renderer.ts:24-46 | defaults 64 by 16 and gap 0.1 unless a non-zero value is given; speed 50; a black buffer and a sentinel prevBuffer; no <rect>s yet |
| SvgRenderer.SvgLedRenderer.CreateSvg | src/core/renderers/svg-renderer.ts:57-95 | _createSvg gives one unpainted <rect> per cell and keeps prevBuffer |
| SvgRenderer.SvgLedRenderer.Flush | src/core/renderers/svg-renderer.ts:123-157 | flush creates the <rect>s on first use, repaints exactly the cells that changed since the last flush, keeps every other painted <rect>, and records the buffer as painted |
| SvgRenderer.SvgLedRenderer.SetPixel | src/core/renderers/svg-renderer.ts:108-115 | setPixel changes exactly the addressed in-grid cell |
| SvgRenderer.SvgLedRenderer.Clear | src/core/renderers/svg-renderer.ts:117-121 | clear makes every cell black and keeps prevBuffer, so the next flush repaints the cells that were lit |
| SvgRenderer.SvgLedRenderer.Animate | src/core/renderers/svg-renderer.ts:201-211 | a tick of a running loop steps and renders exactly as the render loop does and repaints exactly the changed cells; a stopped loop changes nothing in the backend, the player, the manager or the buffer |
| SvgRenderer.SvgLedRenderer.RenderFrame | src/core/renderers/svg-renderer.ts:213-216 | a frame leaves the manager as it was, puts the frame of the current effect in the buffer and repaints exactly the changed cells |
| SvgRenderer.SvgLedRenderer.RenderStatic | src/core/renderers/svg-renderer.ts:218-221 | renderStatic puts the current frame in the buffer and repaints exactly the changed cells without touching the manager |
| SvgRenderer.SvgLedRenderer.Start | src/core/renderers/svg-renderer.ts:182-187 | a start while running changes nothing; from stopped it restarts the clock at `now`, runs the first tick (a step only when the frame interval is not positive), requests the next frame and repaints exactly the cells the current frame changed |
| SvgRenderer.SvgLedRenderer.SetDimensions | src/core/renderers/svg-renderer.ts:223-235 | the same size changes nothing; a new size gives the new size and scroll width, a black buffer, a sentinel prevBuffer, a fresh manager at tick 0 in the current effect's starting state, and <rect>s recreated at the next flush |
| SvgRenderer.SvgLedRenderer.Destroy | src/core/renderers/svg-renderer.ts:247-252 | destroy stops the loop and drops the <rect>s, keeping both buffers, the effect, speed, manager, clock and stored grids |
| SvgRenderer.CreatePixelSvg | src/core/renderers/svg-renderer.ts:255-273 | createPixelSvg emits width * height <rect>s, the i-th for cell (i % width, i / width) |
| SvgRenderer.CellOrder | src/core/renderers/svg-renderer.ts:263-271 | cell (x, y) is the (y * width + x)-th <rect> of the markup |
| SvgRenderer.PixelRectGlow | src/core/renderers/svg-renderer.ts:266-268 | a cell glows exactly when its colour is given, non-empty and none of #111, #000, #1a1a1a, #050505; a missing or empty colour is drawn #111 |
| FontCommon.HeightKey | src/core/fonts/bdf-font.ts:66-70 | the size class is 16, 24 or 32: 16 exactly for heights up to 18, 32 exactly above 28 |
| FontCommon.HeightKeyMonotone | src/core/fonts/canvas-font.ts:38-42 | a taller display never selects a smaller size class |
| FontCommon.LastSlash | src/core/fonts/bdf-font.ts:48-50 | `lastIndexOf('/')`: the index of a slash with no slash after it, or -1 when there is none |
| FontCommon.BasePath | src/core/fonts/bdf-font.ts:48-50 | the page directory is a prefix of the pathname that ends in a slash (or is empty) and the rest of the pathname holds no slash |
| FontCommon.FileOr | src/core/fonts/bdf-font.ts:51 | `fileName \|\| fontName`: a non-empty file name wins, otherwise the font name |
| BdfFont.ConfigFor | src/core/fonts/bdf-font.ts:24-35 | BDF_FONT_CONFIG has an entry exactly for the two shipped fonts at sizes 16, 24 and 32 |
| BdfFont.EveryHeightConfigured | src/core/fonts/bdf-font.ts:140-142 | every display height selects a size every shipped font has |
| BdfFont.DefaultResolver | src/core/fonts/bdf-font.ts:46-52 | without a window the file is under `/fonts/`; with one it is under `fonts/` of the page's directory |
| BdfFont.ResolverUnderPage | src/core/fonts/bdf-font.ts:48-51 | the page-relative URL is the page's directory (a prefix of the pathname ending at its last slash) followed by `fonts/` and the file |
| BdfFont.Compose | src/core/fonts/bdf-font.ts:150-173 | the copy loops give a width by height grid whose cell (x, y) is the foreground exactly where the placed bitmap holds a '1' and the background everywhere else |
| BdfFont.TextToPixels | src/core/fonts/bdf-font.ts:132-180 | null while the font is not loaded and when drawing throws; all background for blank text; otherwise the bitmap centred on the display and nudged by the size's yOffset |
| BdfFont.Origin | src/core/fonts/bdf-font.ts:160-161 | `Math.floor((size - extent) / 2)`: twice the origin is the leftover space or one less |
| BdfFont.Centred | src/core/fonts/bdf-font.ts:160 | a bitmap no wider than the display lies inside it, with a right margin equal to the left one or one more |
| BdfFont.TextToScrollPixels | src/core/fonts/bdf-font.ts:185-239 | null while the font is not loaded and when drawing throws; blank text gives an all-background grid three displays wide; otherwise the grid is display + bitmap + display wide with the bitmap one display in |
| BdfFont.ScrollLeadIn | src/core/fonts/bdf-font.ts:216-225 | the first display width of the scrolling grid is background, so the text scrolls in from the right edge |
| BdfFont.GlyphBits | src/core/fonts/bdf-font.ts:163-171 | a cell shows the foreground exactly where the bitmap holds a '1' at the matching row and column |
| CanvasFont.MetricsFor | src/core/fonts/canvas-font.ts:4-15 | FONT_METRICS has an entry exactly for the two fonts at sizes 16, 24 and 32 |
| CanvasFont.MetricsForEveryHeight | src/core/fonts/canvas-font.ts:101-102 | `fontMetrics[heightKey]` never misses for a font that has metrics |
| CanvasFont.DefaultResolver | src/core/fonts/canvas-font.ts:21-27 | without a window the font is `/fonts/<name>.ttf`; with one it is under `fonts/` of the page's directory |
| CanvasFont.LitBySum | src/core/fonts/canvas-font.ts:139-140 | a pixel is lit exactly when its channel sum reaches three times the threshold |
| CanvasFont.Threshold | src/core/fonts/canvas-font.ts:135-141 | one colour per RGBA quadruple, the foreground exactly where the grey level reaches the threshold |
| CanvasFont.BlankGrid | src/core/fonts/canvas-font.ts:114-118 | the blank-text loop pushes n background entries |
| CanvasFont.TextOrigin | src/core/fonts/canvas-font.ts:127-128 | the text is centred by its measured width and by the font size, floored, then shifted by the metrics' offset |
| CanvasFont.TextToPixels | src/core/fonts/canvas-font.ts:84-144 | null without a document, for a font without metrics or while it loads; all background for blank text; otherwise the thresholded canvas, one entry per display pixel |
| CanvasFont.ScrollWidth | src/core/fonts/canvas-font.ts:173-175 | the scrolling canvas is one display, the text width rounded up, and one display wide |
| CanvasFont.TextToScrollPixels | src/core/fonts/canvas-font.ts:149-213 | null in the same cases as the display version; otherwise a grid ScrollWidth wide, all background for blank text and the thresholded canvas otherwise |
| CanvasFont.ScrollTextOrigin | src/core/fonts/canvas-font.ts:197-198 | on the scrolling canvas the text starts one display in, nudged by the offset, at the display's vertical position |
| FontConfig.StripTrailingSlashes | src/core/fonts/index.ts:26 | the result is a prefix of the base that does not end in a slash, and only slashes were removed |
| FontConfig.StripIdempotent | src/core/fonts/index.ts:26 | stripping a stripped base changes nothing |
| FontConfig.StripRestoresBySlashes | src/core/fonts/index.ts:26 | the base followed by the removed slashes is the original string |
| FontConfig.StripIgnoresExtraSlashes | src/core/fonts/index.ts:26 | bases that differ only in trailing slashes strip to the same base |
| FontConfig.TtfUrl | src/core/fonts/index.ts:27 | the TTF URL is the base, one slash, the name and `.ttf` |
| FontConfig.BdfUrl | src/core/fonts/index.ts:28 | the BDF URL is the base, one slash and the file, or the name when no file is given |
| FontConfig.SingleSlash | src/core/fonts/index.ts:26-27 | a stripped base joins the name with exactly one slash, however many trailing slashes the configured base had |
| FontConfig.ResolveTtf | src/core/fonts/canvas-font.ts:21-27 | the URL a TTF resolver yields: the default's, the base URL's, or unknown exactly for a supplied resolver |
| FontConfig.ResolveBdf | src/core/fonts/bdf-font.ts:46-52 | the URL a BDF resolver yields: the default's, the base URL's, or unknown exactly for a supplied resolver |
| FontConfig.FontSettings.constructor | src/core/fonts/bdf-font.ts:54 | both back ends start with their default resolver |
| FontConfig.FontSettings.SetTtf | src/core/fonts/canvas-font.ts:34-36 | setFontResolver of the TTF back end replaces only that resolver |
| FontConfig.FontSettings.SetBdf | src/core/fonts/bdf-font.ts:59-61 | setFontResolver of the BDF back end replaces only that resolver |
| FontConfig.FontSettings.ConfigureFonts | src/core/fonts/index.ts:20-32 | each back end ends with its supplied resolver, else the stripped base URL's when a non-empty base is given, else its old resolver |
| FontConfig.BaseUrlTtf | src/core/fonts/index.ts:25-27 | with a base URL and no TTF resolver every font's URL is the stripped base, one slash, the name and `.ttf` |
| FontConfig.SuppliedWins | src/core/fonts/index.ts:25-31 | a supplied resolver wins over any base URL and the resolver before |
| FontConfig.ConfigureIdempotent | src/core/fonts/index.ts:20-32 | configuring twice with the same options equals configuring once |
| Effects.KeysListed | src/core/effects/index.ts:180 | ALL_EFFECTS lists exactly the keys of EFFECTS |
| Effects.SectionCategories | src/core/effects/index.ts:12-77 | each section of EFFECTS holds only entries of its own category |
| Effects.Filter | src/core/effects/index.ts:168-178 | the category filter keeps, in order, exactly the listed keys whose entry has that category |
| Effects.FilterPartition | src/core/effects/index.ts:168-178 | every listed key goes to exactly one of the three category lists, so their lengths add up to the number of keys |
| Effects.Paired | src/core/effects/index.ts:101-103 | `Object.entries(...).map`: each key in order with its own entry |
| Effects.FilterKeeps | src/core/effects/index.ts:101-102 | every entry of a category survives that category's filter |
| Effects.EffectsByCategory | src/core/effects/index.ts:100-104 | getEffectsByCategory pairs each returned key with its own EFFECTS entry, and every entry has the asked category |
| Effects.EffectsByCategoryComplete | src/core/effects/index.ts:100-104 | getEffectsByCategory misses no effect of the category |
| Effects.CategoryOfInfo | src/core/effects/index.ts:96-98 | the category read off the key lists is the category of getEffectInfo's result, for every name |
| Effects.FixedEntry | src/core/effects/index.ts:14 | `fixed` is a listed text effect and its entry is the fallback info |
| Effects.GetEffectInfoFallback | src/core/effects/index.ts:96-98 | a listed name gets its own entry; any other name gets `fixed`'s, so it is a text effect, needs animation and is not ambient |
| Effects.UnknownIsFixed | src/core/effects/index.ts:97 | an unknown name, which is never `fixed` itself, gets `fixed`'s info |
| Effects.AmbientListed | src/core/effects/index.ts:159-161 | isAmbient holds exactly for the names AMBIENT_EFFECTS lists |
| Effects.CategoryLists | src/core/effects/index.ts:168-180 | TEXT_EFFECTS, AMBIENT_EFFECTS and COLOR_EFFECTS are pairwise disjoint and together hold exactly ALL_EFFECTS |
| Effects.CategoryListsLength | src/core/effects/index.ts:168-180 | the three category lists together are as long as ALL_EFFECTS |
| Effects.CategoryAsWritten | src/core/effects/index.ts:97 | `EFFECTS[name] \|\| EFFECTS.fixed` as written: an own entry gives its category, an inherited Object.prototype property gives none |
| Effects.InheritedNameSkipsFallback | src/core/effects/index.ts:97-121 | "toString" is no effect, yet as written it escapes the `fixed` fallback and matches no case of the dispatch; the corrected lookup treats it as `fixed` |
| Effects.ToStringNotAKey | src/core/effects/index.ts:12-77 | "toString" is not a key of EFFECTS |
| Effects.EffectManager.constructor | src/core/effects/index.ts:87-94 | a new manager shows `fixed` at tick 0 with an empty state |
| Effects.EffectManager.InitEffect | src/core/effects/index.ts:106-124 | initEffect records the name, restarts at tick 0 with the options and runs the init of exactly the module of the name's category; an ambient effect starts from its initial clocks, counters and buffers |
| Effects.EffectManager.Step | src/core/effects/index.ts:126-141 | step increments tick by one and advances the state exactly as the current category's step does (the sparkle stepping, the text counters, the ambient advance, the colour step), keeping the same effect |
| Effects.EffectManager.Render | src/core/effects/index.ts:143-157 | render leaves tick, name and state alone and makes the buffer the frame of the current category: the ambient picture, or each cell coloured from the text or colour grid at its column and row |
| Effects.UnknownCopiesGrid | src/core/effects/index.ts:143-151 | an unknown name renders like `fixed`: every cell shows the parsed colour of the supplied grid |
| Effects.InitNamesListed | src/core/effects/index.ts:14-29 | every name the text init has a case for is a text key of EFFECTS |
| TextEffects.DrawMany | src/core/effects/text-effects.ts:26-29 | the phase loop draws one value per cell, the i-th from the i-th random draw |
| TextEffects.PlaceSparkles | src/core/effects/text-effects.ts:47-55 | the sparkle loop places n sparkles, the i-th from draws 4i to 4i + 3 |
| TextEffects.Init | src/core/effects/text-effects.ts:11-107 | init builds exactly the starting state of the named effect, its random fields drawn in order |
| TextEffects.InitialVariant | src/core/effects/text-effects.ts:11-107 | init creates the state variant of the named effect, and the field-less one exactly for names it has no case for |
| TextEffects.InitialFields | src/core/effects/text-effects.ts:24-75 | snow and breeze get one phase per cell in [0, 2 PI), dissolve one threshold per cell in [0, 1), sparkle floor(width * height / 10) sparkles |
| TextEffects.InitSparklesOk | src/core/effects/text-effects.ts:47-55 | every sparkle init places lies on the grid, with brightness in [0, 1] and speed in [0.05, 0.15) |
| TextEffects.StepSparkles | src/core/effects/text-effects.ts:159-171 | each sparkle becomes its twinkled form with the draws after those the earlier restarts took: it keeps its speed and brightens by it, and one that passes 1 goes dark and moves to a cell of the grid |
| TextEffects.TwinkledOk | src/core/effects/text-effects.ts:159-171 | one twinkle keeps the speed; past 1 the sparkle goes dark onto the grid, otherwise it brightens by its speed |
| TextEffects.TwinkledFacts | src/core/effects/text-effects.ts:159-171 | the twinkle facts hold for every sparkle of a whole step |
| TextEffects.Step | src/core/effects/text-effects.ts:109-272 | step is the counter update for every effect but sparkle; sparkle keeps its count and invariant, and each sparkle twinkles with the draws left by the earlier ones |
| TextEffects.InitialBounded | src/core/effects/text-effects.ts:11-107 | every state init creates lies within its effect's range |
| TextEffects.StepBounded | src/core/effects/text-effects.ts:109-272 | one step keeps every counter of every effect within its range |
| TextEffects.RunBounded | src/core/effects/text-effects.ts:109-272 | any number of steps from init keeps every counter within its range |
| TextEffects.ScrollLtrWraps | src/core/effects/text-effects.ts:113-118 | scroll_ltr stays in (-srcWidth, width] and jumps to the display width exactly when the text has left the source |
| TextEffects.ScrollRtlWraps | src/core/effects/text-effects.ts:119-124 | scroll_rtl stays in [-width, srcWidth) and jumps to -width exactly when the offset reaches the source width |
| TextEffects.OscillateTurns | src/core/effects/text-effects.ts:147-158 | the bounced counter stays in [0, max], turns down exactly at the top and up exactly at the bottom, and otherwise just moves |
| TextEffects.TypewriterPace | src/core/effects/text-effects.ts:141-146 | the typewriter reveals one more character exactly on ticks divisible by 3, and its cursor shows exactly when tick % 10 < 5 |
| TextEffects.TypewriterCount | src/core/effects/text-effects.ts:141-146 | after n steps from tick 0 the typewriter has revealed (n + 2) / 3 characters |
| TextEffects.ShiftPeriod | src/core/effects/text-effects.ts:293-294 | adding or removing one source width keeps the column's residue |
| TextEffects.WrapColumn | src/core/effects/text-effects.ts:292-294 | the two while loops bring the column into [0, srcWidth) without changing its residue |
| TextEffects.ScrollSamplesSource | src/core/effects/text-effects.ts:289-295 | a scrolled cell samples the source column congruent to x - offset, inside the source width |
| TextEffects.FullRevealShowsText | src/core/effects/text-effects.ts:296-401 | at the fully revealed end of every reveal effect each cell shows the text's own colour |
| TextEffects.FullHideShowsNothing | src/core/effects/text-effects.ts:296-401 | at the fully hidden end each cell is unlit #111 |
| TextEffects.ModulateKeepsUnlit | src/core/effects/text-effects.ts:403-451 | the per-effect modulation never changes an unlit cell |
| TextEffects.ModulateDims | src/core/effects/text-effects.ts:409-451 | laser, fade and blink keep a byte-range colour in range and never brighten a lit cell |
| TextEffects.Render | src/core/effects/text-effects.ts:274-468 | render writes every display cell once, with the colour its effect gives it |
| ColorEffects.Init | src/core/effects/color-effects.ts:11-25 | init creates the colour_cycle, rainbow_text and neon states exactly for those names; neon's base is the non-empty foreground option, never empty |
| ColorEffects.StepBounded | src/core/effects/color-effects.ts:27-46 | one step keeps hue and offset in [0, 1) and the neon glow in [0.3, 1]; the glow reaches 1 exactly when it would pass it, and turns exactly at either end |
| ColorEffects.RunBounded | src/core/effects/color-effects.ts:11-46 | every state reached from init by any number of steps is in range |
| ColorEffects.Render | src/core/effects/color-effects.ts:48-99 | render writes every display cell once, with the parsed text colour recoloured when lit |
| ColorEffects.UnlitUnchanged | src/core/effects/color-effects.ts:54-58 | an unlit cell keeps its parsed colour whatever the effect |
| ColorEffects.TintedInRange | src/core/effects/color-effects.ts:60-75 | a hue colour dimmed by a byte-range cell's brightness stays a byte-range colour |
| ColorEffects.WhiteMixInRange | src/core/effects/color-effects.ts:85-90 | mixing towards white keeps a byte value in range and never darkens it |
| ColorEffects.NeonChannelInRange | src/core/effects/color-effects.ts:81-90 | a neon channel at a glow in [0, 1] is a byte value no darker than the scaled base channel |
| ColorEffects.NeonInRange | src/core/effects/color-effects.ts:77-92 | the neon colour of a byte-range base stays in range and only brightens the scaled base |
| ColorEffects.RecolorInRange | src/core/effects/color-effects.ts:58-93 | every recolouring of a byte-range colour from an in-range state stays in range |
| ColorEffects.CellInRange | src/core/effects/color-effects.ts:52-97 | from any in-range state render writes only byte-range colours |
| AmbientEffects.Zeros | src/core/effects/ambient-effects.ts:37-52 | the heat and water buffers start as one zero per cell |
| AmbientEffects.Noise | src/core/effects/ambient-effects.ts:79-87 | the lava noise holds one phase per cell, the i-th from the i-th draw scaled to [0, 2 PI) |
| AmbientEffects.Init | src/core/effects/ambient-effects.ts:11-165 | init builds the state of exactly the named effect, keeps its invariant from the start, and starts clocks, counters and buffers at zero, black or empty |
| AmbientEffects.NotAmbient | src/core/effects/ambient-effects.ts:11-165 | a name matching none of init's cases is not an ambient effect name |
| AmbientEffects.BlackTrail | src/core/effects/ambient-effects.ts:127-163 | the trail buffers of bouncing and flow_field start as one black cell per LED |
| AmbientEffects.Step | src/core/effects/ambient-effects.ts:167-248 | step keeps the effect's invariant and identity and advances the state exactly per effect: clocks by their rates, matrix rows down and reseeded, fire cooled, risen and sparked, water rippled with its droplet, each moving element by its own update with the draws the earlier ones left, fireworks launched, kept and burst, a name without a case unchanged |
| AmbientEffects.StepWater | src/core/effects/ambient-effects.ts:425-454 | the water step keeps the ripple invariant, borders included, and advances the buffers exactly as the ripple and droplet do |
| AmbientEffects.SameEffectSameName | src/core/effects/ambient-effects.ts:167-248 | a stepped state is built for exactly the names the old one was, so step never turns one effect into another |
| AmbientEffects.UnknownStaysIdle | src/core/effects/ambient-effects.ts:11-165 | a name without an init case keeps no state |
| AmbientEffects.Picture | src/core/effects/ambient-effects.ts:250-273 | a render keeps the panel's size |
| AmbientEffects.Render | src/core/effects/ambient-effects.ts:250-273 | render leaves the panel unchanged for a name without a case, and otherwise the full-panel pass with the effect's overlay dots stamped over it |
| AmbientEffects.UnknownLeavesPanel | src/core/effects/ambient-effects.ts:250-273 | a name without a case leaves the panel exactly as it was |
| AmbientEffects.CellwisePicture | src/core/effects/ambient-effects.ts:275-286 | an effect without overlay shows in each cell the colour its own position gives it |
| Matrix.Init | src/core/effects/ambient-effects.ts:18-32 | the colour mode is one of the three modes, picked by the first draw, and the buffer is height rows of width black cells |
| Matrix.Faded | src/core/effects/ambient-effects.ts:294-298 | the faded row keeps the row's length |
| Matrix.SeedInMode | src/core/effects/ambient-effects.ts:304-306 | a seeded channel is a whole number in [0, mode channel), or 0 for a zero channel |
| Matrix.ScaledDraw | src/core/effects/ambient-effects.ts:304-306 | a draw in [0, 1) scales a non-negative channel to [0, channel), or to 0 |
| Matrix.SeedColorSeeded | src/core/effects/ambient-effects.ts:303-307 | a seeded cell's colour lies channel by channel within the colour mode |
| Matrix.Reseed | src/core/effects/ambient-effects.ts:301-309 | each top-row column is the reseeded form of the old cell under the draws the earlier columns left: kept, or a seeded colour of the mode |
| Matrix.FadedInRange | src/core/effects/ambient-effects.ts:294-298 | fading a byte-range row keeps it in range |
| Matrix.SeededInRange | src/core/effects/ambient-effects.ts:303-307 | a colour seeded within a byte-range mode is in range |
| Matrix.Step | src/core/effects/ambient-effects.ts:288-310 | the rain moves every row down by one; the new top row is the faded old top row, each column reseeded under its own draws; the shape is kept, and byte-range colours stay in range |
| Matrix.ReseededCellSeeded | src/core/effects/ambient-effects.ts:301-309 | a reseeded column is the old cell or a seeded colour of the mode |
| Matrix.ReseedKeepsMode | src/core/effects/ambient-effects.ts:301-309 | a whole reseeded row keeps each cell or gives it a seeded colour of the mode |
| Matrix.StepMovesDown | src/core/effects/ambient-effects.ts:293-299 | after a step the cell below shows what the cell above showed before |
| Fire.CreatePalette | src/core/effects/ambient-effects.ts:368-384 | the palette has 256 entries, entry i as the four colour bands say |
| Fire.PaletteInRange | src/core/effects/ambient-effects.ts:368-384 | every palette entry is a byte-range colour |
| Fire.PaletteMonotone | src/core/effects/ambient-effects.ts:368-384 | a hotter palette entry is never darker in any channel |
| Fire.PaletteBands | src/core/effects/ambient-effects.ts:372-380 | black to red, red to yellow, yellow to white, then white, each band rising by 4 per step |
| Fire.Cooled | src/core/effects/ambient-effects.ts:389-391 | cooling keeps the heat map's size |
| Fire.Propagate | src/core/effects/ambient-effects.ts:393-401 | the rise keeps the heat map's size |
| Fire.CooledInRange | src/core/effects/ambient-effects.ts:389-391 | cooled heat stays in [0, 255] |
| Fire.RiseInRange | src/core/effects/ambient-effects.ts:399 | the average of three heats in [0, 255] divided by 3.05 is in [0, 255] |
| Fire.PropagateInRange | src/core/effects/ambient-effects.ts:393-401 | the rise keeps every heat in [0, 255] |
| Fire.PropagateKeepsRest | src/core/effects/ambient-effects.ts:393-401 | the rise leaves every cell after the current one untouched |
| Fire.Cool | src/core/effects/ambient-effects.ts:389-391 | the cooling loop computes the cooled heat map |
| Fire.RiseAll | src/core/effects/ambient-effects.ts:393-401 | the rise loops compute the heat map risen over every row but the bottom one |
| Fire.RiseRow | src/core/effects/ambient-effects.ts:394-400 | the inner rise loop computes one row of the risen heat map |
| Fire.Reseed | src/core/effects/ambient-effects.ts:403-407 | only bottom-row cells change, each set to its spark form under the draws the earlier columns left: kept, or a heat in [180, 255) |
| Fire.Step | src/core/effects/ambient-effects.ts:386-408 | a step cools, rises every row but the bottom and sparks each bottom cell under its own draw, and keeps heat in [0, 255] |
| Fire.SparkedRange | src/core/effects/ambient-effects.ts:403-407 | a sparked bottom cell keeps its heat or takes a heat in [180, 255) |
| Fire.SparkFacts | src/core/effects/ambient-effects.ts:403-407 | after the reseeding loop the rows above are untouched and each bottom cell is sparked under its own draw |
| Fire.CellIsPaletteEntry | src/core/effects/ambient-effects.ts:415-421 | each cell shows the palette entry of its heat, capped at 255 and floored |
| Water.Idx | src/core/effects/ambient-effects.ts:437 | an in-grid cell's index lies in the buffer |
| Water.WriteCell | src/core/effects/ambient-effects.ts:438-445 | writing one cell changes that cell only |
| Water.RippleOne | src/core/effects/ambient-effects.ts:436-446 | one inner pass writes the ripple of its cell and extends the rippled part by one cell |
| Water.NextRowState | src/core/effects/ambient-effects.ts:435-436 | finishing a row's interior starts the next row |
| Water.Copy | src/core/effects/ambient-effects.ts:431-433 | the copy loop makes previous equal to current |
| Water.RippleRow | src/core/effects/ambient-effects.ts:436-446 | the inner loop ripples the interior of one row |
| Water.Ripple | src/core/effects/ambient-effects.ts:430-447 | previous becomes the old current; interior cells get the damped ripple of the old previous's neighbours, border cells keep their value |
| Water.PickInside | src/core/effects/ambient-effects.ts:450-451 | the droplet's coordinate lies strictly inside the border on a panel at least 3 wide |
| Water.Droplet | src/core/effects/ambient-effects.ts:449-453 | on a panel at least 3 by 3 the droplet sets to 255 exactly the cell its draws pick when draw 0 is below 0.1, and keeps every other cell; it never sets anything but 255 |
| Water.Step | src/core/effects/ambient-effects.ts:425-454 | previous becomes the old current; each interior cell is 255 where the droplet lands and the ripple value elsewhere; the border stays as it was |
| Water.StepKeepsBorderStill | src/core/effects/ambient-effects.ts:425-454 | a border that is still in both buffers stays still after a step |
| Water.ColorInRange | src/core/effects/ambient-effects.ts:463-468 | a water colour is in byte range with blue at least 50, red exactly above intensity 200, and symmetric in the sign of the value |
| Stars.StarCount | src/core/effects/ambient-effects.ts:55 | floor(width * height * 0.15) stars never outnumber the cells |
| Stars.NewStarOnPanel | src/core/effects/ambient-effects.ts:57-63 | every star init places lies on the panel with a speed in [0.02, 0.07) |
| Stars.InitStars | src/core/effects/ambient-effects.ts:53-66 | init places StarCount stars, the i-th from draws 5i to 5i + 4, all on the panel |
| Stars.StepStars | src/core/effects/ambient-effects.ts:187-193 | each star's phase advances by its speed and nothing else changes |
| Stars.StarDots | src/core/effects/ambient-effects.ts:484-492 | one overlay dot per star |
| Stars.StarDotInRange | src/core/effects/ambient-effects.ts:485-486 | a star's dot is a byte-range colour |
| Stars.NewStar3InDepth | src/core/effects/ambient-effects.ts:91-96 | every starfield star of init stands at a depth in [0, 2 * width) |
| Stars.InitStarfield | src/core/effects/ambient-effects.ts:88-100 | init places forty stars, the i-th from draws 3i to 3i + 2, all within depth |
| Stars.ApproachedInDepth | src/core/effects/ambient-effects.ts:692-702 | a star comes 0.8 closer and records where it came from, or resets to depth 2 * width; its depth stays in range and above 0 |
| Stars.StepStarfield | src/core/effects/ambient-effects.ts:691-703 | each star is approached by 0.8 with the draws the earlier resets left, keeps its depth range, and a star far enough away only comes 0.8 closer |
| Stars.StepKeepsDepth | src/core/effects/ambient-effects.ts:691-703 | every approached star keeps its depth range, and a far star just comes 0.8 closer |
| Stars.Star3DotsInRange | src/core/effects/ambient-effects.ts:718-729 | a star within depth is drawn in byte colours, and only on the panel |
| Confetti.NewPiece | src/core/effects/ambient-effects.ts:495-518 | a new piece falls at 0.2 to 0.5 cells a step, drifts less than 0.15 sideways, takes one of the eight colours, and starts on row -2 unless a random row is asked for |
| Confetti.InitConfetti | src/core/effects/ambient-effects.ts:67-72 | init makes twenty pieces at random rows, piece i from the eight draws starting at 8i |
| Confetti.FallenOnPanel | src/core/effects/ambient-effects.ts:194-209 | a stepped piece stays well formed and is never below the panel; one still on the panel falls by exactly its speed |
| Confetti.StepConfetti | src/core/effects/ambient-effects.ts:194-209 | each piece falls with the draws the earlier respawns left; the number of pieces is kept, and every piece stays well formed and no lower than the bottom row |
| Confetti.StepKeepsPieces | src/core/effects/ambient-effects.ts:194-209 | every fallen piece stays well formed and no lower than the bottom row |
| Confetti.PieceDots | src/core/effects/ambient-effects.ts:520-541 | the render draws one dot per piece |
| Confetti.PieceDotInRange | src/core/effects/ambient-effects.ts:533-539 | the shimmer keeps a piece's dot a byte colour no brighter than the piece's own colour, channel by channel |
| Confetti.NewMoteOk | src/core/effects/ambient-effects.ts:149-163 | every flow-field mote init makes lies on the panel with a hue in [0, 1) |
| Confetti.InitFlowField | src/core/effects/ambient-effects.ts:149-163 | init makes fifty motes, mote i from its own three draws |
| Confetti.WrapInRange | src/core/effects/ambient-effects.ts:962-965 | wrapping a position less than one panel size off the panel brings it back onto the panel |
| Confetti.DriftedOk | src/core/effects/ambient-effects.ts:950-965 | a mote on the panel is still on the panel, with a hue in [0, 1), after drifting along the flow |
| Confetti.FadedTrail | src/core/effects/ambient-effects.ts:942-948 | the trail fade keeps every cell of the trail |
| Confetti.PaintedInRange | src/core/effects/ambient-effects.ts:967-977 | painting a mote's colour onto a cell never darkens it and keeps every channel within 0..255 |
| Confetti.StepFlowField | src/core/effects/ambient-effects.ts:935-979 | the step advances time by 0.02, drifts every mote along the flow at the new time, paints the faded trail with the moved motes, keeps motes on the panel and hues non-negative, and keeps the trail a grid of byte colours |
| Confetti.DriftedAll | src/core/effects/ambient-effects.ts:935-979 | drifting keeps every mote on a panel of at least one cell, and hues non-negative |
| Confetti.PaintMotesInRange | src/core/effects/ambient-effects.ts:935-979 | painting motes with non-negative hues onto a byte-colour trail leaves a byte-colour trail |
| Fireworks.Launched | src/core/effects/ambient-effects.ts:741-750 | a launched rocket has not burst and rises at more than 1 and at most 1.5 cells a step |
| Fireworks.Kept | src/core/effects/ambient-effects.ts:753-774 | every rocket either bursts or is kept, and no kept rocket is slower than the burst speed |
| Fireworks.KeptStep | src/core/effects/ambient-effects.ts:753-774 | the kept rockets and the burst count of a suffix follow from its first rocket and the rest |
| Fireworks.SparkCount | src/core/effects/ambient-effects.ts:759 | a burst throws between 16 and 23 sparks |
| Fireworks.Burst | src/core/effects/ambient-effects.ts:757-771 | a burst pushes 16 to 23 sparks at the rocket's position, in its colour, at full life, and takes one draw for the count plus one per spark |
| Fireworks.FlyRocketAt | src/core/effects/ambient-effects.ts:754-773 | one pass of the rocket loop keeps the loop invariant: the rockets already handled are those Kept selects, and between 16 and 23 full-life sparks per burst have been pushed |
| Fireworks.FlyRockets | src/core/effects/ambient-effects.ts:753-774 | the rocket loop leaves exactly the kept rockets in their order, and pushes between 16 and 23 sparks at full life per burst rocket |
| Fireworks.Surviving | src/core/effects/ambient-effects.ts:776-785 | aging never adds sparks and every surviving spark has life left |
| Fireworks.SurvivingStep | src/core/effects/ambient-effects.ts:776-785 | the survivors of a suffix follow from its first spark and the rest |
| Fireworks.NoneDieEarly | src/core/effects/ambient-effects.ts:781-784 | sparks with more than 0.02 of life left all survive a step |
| Fireworks.SparkLifetime | src/core/effects/ambient-effects.ts:781-784 | a spark loses 0.02 of life per step, so a fresh spark lives exactly 49 steps |
| Fireworks.AgeSparks | src/core/effects/ambient-effects.ts:776-785 | the backwards splice loop leaves exactly the surviving sparks, aged, in their order |
| Fireworks.Step | src/core/effects/ambient-effects.ts:733-786 | the timer resets exactly when a rocket launches (past 40 steps, fewer than 3 in flight); the rockets left are the kept ones, at most 3; the sparks are the surviving aged ones followed by between 16 and 23 fresh sparks (life 0.98) per burst rocket |
| Fireworks.FreshSurvive | src/core/effects/ambient-effects.ts:756-785 | fresh sparks of life 1 all survive the ageing step, each aged once to life 0.98 |
| Fireworks.Dots | src/core/effects/ambient-effects.ts:799-819 | the render draws one dot per rocket and one per spark |
| Fireworks.SparkDotInRange | src/core/effects/ambient-effects.ts:809-819 | a spark dimmed by its remaining life is drawn in a byte colour |
| RainStorm.NewDrop | src/core/effects/ambient-effects.ts:107-121 | a new drop falls at 0.3 to 0.8 cells a step, with brightness in [0.3, 1) and a streak of 2 to 4 cells |
| RainStorm.Init | src/core/effects/ambient-effects.ts:107-121 | init makes thirty well-formed drops, drop i from its own five draws, with no flash and time 0 |
| RainStorm.FallenOk | src/core/effects/ambient-effects.ts:826-834 | a falling drop stays well formed and never falls more than its streak below the panel; a respawn takes three draws and puts the streak just above the panel, otherwise the drop falls by its speed |
| RainStorm.Flash | src/core/effects/ambient-effects.ts:837-842 | the countdown stays in [0, 8), and a flash leaves it at 7 after that step's count-down |
| RainStorm.Step | src/core/effects/ambient-effects.ts:822-843 | time advances by one; each drop falls with the draws the earlier drops took, keeping its length and staying no more than its streak below the panel; the lightning countdown is set or counted down by the draw after them and stays in [0, 8) |
| RainStorm.StepKeepsDrops | src/core/effects/ambient-effects.ts:822-843 | every fallen drop keeps its length and stays well formed, no more than its streak below the panel |
| RainStorm.Streak | src/core/effects/ambient-effects.ts:857-867 | a drop draws one streak cell per cell of its length, none for a non-positive length |
| RainStorm.StreakInRange | src/core/effects/ambient-effects.ts:857-867 | every streak cell is a byte colour, no brighter than the drop's head |
| RainStorm.FadeBounds | src/core/effects/ambient-effects.ts:862-864 | the streak fades from the drop's brightness at its head toward 0 and never below 0 |
| RainStorm.BackgroundInRange | src/core/effects/ambient-effects.ts:850-855 | the background is a byte colour and is brighter during a flash |
| Munch.StepKeepsOk | src/core/effects/ambient-effects.ts:122-126 | init puts the counter on the panel and every step keeps it on the panel with a direction of +1 or -1 |
| Munch.StepMoves | src/core/effects/ambient-effects.ts:228-240 | time advances by one; the counter moves one column in its direction only on even times, and at either end it stays and turns round |
| Munch.XorValue | src/core/effects/ambient-effects.ts:878 | the xor level is in 0..15 |
| Munch.CellSymmetric | src/core/effects/ambient-effects.ts:870-885 | the munching-squares pattern is symmetric in x and y |
| Munch.XorZero | src/core/effects/ambient-effects.ts:878 | a cell is at level 0 exactly when the low nibbles of x and y xor to the counter's |
| Munch.ShadeInRange | src/core/effects/ambient-effects.ts:879-881 | every shade of the pattern is a byte colour |
| Bouncing.NewBall | src/core/effects/ambient-effects.ts:127-148 | a new ball lies on the panel with both velocity components in [-0.75, 0.75) |
| Bouncing.Init | src/core/effects/ambient-effects.ts:127-148 | init makes six balls, ball i from its own four draws, and a black trail of width times height cells |
| Bouncing.BounceInRange | src/core/effects/ambient-effects.ts:900-911 | after a move the position lies within the panel, the speed is kept, and the direction flips exactly when an edge was reached |
| Bouncing.MovedOnPanel | src/core/effects/ambient-effects.ts:900-911 | a moved ball lies on the panel, in a cell of it, at the same speeds and in the same colour |
| Bouncing.BallDots | src/core/effects/ambient-effects.ts:913-918 | one trail cell is painted per ball |
| Bouncing.FadedTrail | src/core/effects/ambient-effects.ts:892-898 | the fade keeps every cell of the trail |
| Bouncing.Step | src/core/effects/ambient-effects.ts:887-920 | every ball is moved and bounced; the new trail is the faded trail with each moved ball's cell painted, in ball order |
| Bouncing.UntouchedCellFades | src/core/effects/ambient-effects.ts:892-918 | a cell no ball lands on keeps 0.85 of its previous colour |
| Bouncing.BallShows | src/core/effects/ambient-effects.ts:913-918 | a ball's cell shows the ball's colour unless a later ball lands on the same cell |

## Left out

- React bindings, the documentation site and the re-export files carry no behaviour of the core and are not modelled.
- DOM and canvas plumbing is not modelled, only the values it is given:
  - creating the canvas or SVG element, `setContainer` and `_ensure*InContainer`;
  - `_roundRect`, `putImageData`, attribute and style writes.
  - Canvas `flush` is modelled as the list of squares it draws.
  - The SVG `flush` is modelled as the set of rectangles it repaints, with their fill and glow.
- The canvas glow pass (`drawImage` of the canvas onto itself with a blur filter) is not modelled: its pixels are the browser's.
- `requestAnimationFrame`, `cancelAnimationFrame` and `performance.now` become a `now` parameter of the animation tick.
  - The pending frame handle is a flag.
- `Math.random()` is a sequence of draws in [0, 1) supplied by the host. Past the end of the sequence the model reads 0.
  - No distributional property is stated.
- The trigonometric colour fields are host functions of effect name, time and cell: plasma, gradient, plasma_wave, radial_pulse, hypnotic, aurora and the lava colour.
  - The model states which state they read, not their formulas.
  - The same holds for the sine shimmer of confetti and stars, the flow-field angle and the firework burst angles.
- Floating point is exact real arithmetic. Rounding differences of IEEE doubles are not modelled.
- Async font loading and its caches are not modelled: `loadFont`, `loadBdfFont`, `ensureBdfParser`, `preloadFonts`, `preloadBdfFonts`, `isFontLoaded`.
  - Whether a font is loaded, or its parsed BDF font is cached, is an input.
- `font.draw` of the BDF parser, `measureText` and `getImageData` are foreign calls. Their results are inputs: the glyph rows, the measured width and the RGBA bytes.
- Number-to-string formatting of coordinates and `rgb(...)` strings in the SVG output is JavaScript-specific.
  - `createPixelSvg` is modelled as the sequence of rectangles it emits, with their fill and glow.
- A resolver passed to `configureFonts` is foreign code. It is an opaque tag, and the URL it would return is not modelled.
- `src/core/fonts/legacy-font` is not part of this model.
- Default arguments are not modelled: callers pass them explicitly. These are the `speed` of `setEffect` (100 on the canvas and bitmap backends, 50 on SVG), the `pixelGap` of `createPixelSvg` (1), and the `fgColor`, `bgColor` and `fontName` of the four text-to-pixels functions (`#ff6600`, `#111`, `VCR_OSD_MONO`).
- Effects.EffectManager.InitEffect: the state record is `{tick: 0, ...options}` (src/core/effects/index.ts:108), so an option named `tick` would set the starting tick. The model always starts at tick 0 and keeps the options in a separate field. Other option keys are not read by the modelled core except `speed` and `fgColor`.
- Effects.EffectManager.Step: the source increments `(tick || 0) + 1`, which treats a missing or non-numeric tick as 0. The model's tick is always an integer, so it is just incremented.
- Matrix.Step: on a panel fewer than 2 rows high the source pops the last row and then reads `buffer[0]` of the emptied buffer, which throws a TypeError. The model leaves the rows unchanged in that case, and `AmbientEffects.Advanced` states exactly that.
- Fireworks.Step: the sparks added by the burst loop are stated by count (16 to 23 per burst rocket) and by life (0.98 after their first ageing), not by position and velocity, nor by which draw each burst starts from. For one rocket, `Fireworks.Burst` states the count, the draws taken, and each spark's position, colour and life. Spark velocities come from `cos`/`sin` of the burst angle times a speed draw and are not stated.

## Findings

| source | as written | input that shows it | evidently intended | confidence | as-written member | corrected member |
|---|---|---|---|---|---|---|
| src/core/effects/index.ts:97 | `EFFECTS[name] \|\| EFFECTS.fixed` reads inherited `Object.prototype` members as well as own keys. For such a name the lookup returns a function with no `category`, so no case of the init, step and render dispatch matches and the effect draws nothing. | `"toString"` (also `"constructor"`, `"valueOf"`, `"hasOwnProperty"`) | every name that is not a key of `EFFECTS` falls back to `fixed`, a text effect that copies the grid | not executed | Effects.InheritedNameSkipsFallback | Effects.GetEffectInfoFallback |
