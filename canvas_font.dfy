// The grid side of src/core/fonts/canvas-font.ts: text is drawn with a
// TrueType font onto a canvas, and the canvas's RGBA bytes are thresholded
// into foreground and background colour strings. Font loading, text
// measuring and drawing are outside the model: the measured width and the
// canvas bytes are inputs.
module CanvasFont {
  import opened Types
  import opened JsMath
  import opened FontCommon

  /** FONT_METRICS: the drawing size, the pixel nudge, the grey level from
      which a pixel counts as lit, and whether the font is proportional. */
  datatype FontMetrics = FontMetrics(fontSize: int, offsetX: int, offsetY: int, threshold: int, varWidth: bool)

  /** FONT_METRICS[fontName][heightKey]. */
  function MetricsFor(fontName: string, heightKey: int): (m: Option<FontMetrics>)
    ensures m.Some? <==> fontName in {"VCR_OSD_MONO", "CUSONG"} && heightKey in {16, 24, 32}
  {
    if fontName == "VCR_OSD_MONO" then
      if heightKey == 16 then Some(FontMetrics(16, 0, 0, 70, true))
      else if heightKey == 24 then Some(FontMetrics(24, 0, 0, 70, true))
      else if heightKey == 32 then Some(FontMetrics(28, -1, 2, 30, false))
      else None
    else if fontName == "CUSONG" then
      if heightKey == 16 then Some(FontMetrics(16, 0, -1, 70, false))
      else if heightKey == 24 then Some(FontMetrics(24, 0, 0, 70, false))
      else if heightKey == 32 then Some(FontMetrics(32, 0, 0, 70, false))
      else None
    else None
  }

  /** Whether FONT_METRICS has an entry for the font at all. */
  predicate KnownFont(fontName: string)
  {
    fontName == "VCR_OSD_MONO" || fontName == "CUSONG"
  }

  /** `fontMetrics[heightKey]` never misses for a known font: every height
      selects a size both fonts list. */
  lemma MetricsForEveryHeight(fontName: string, height: int)
    requires KnownFont(fontName)
    ensures MetricsFor(fontName, HeightKey(height)).Some?
  {
  }

  /** defaultResolver: `<name>.ttf` under `fonts/` of the page's directory,
      or of the site root when there is no window. */
  function DefaultResolver(window: Option<string>, fontName: string): (url: string)
    ensures window.None? ==> url == "/fonts/" + fontName + ".ttf"
    ensures window.Some? ==> url == BasePath(window.value) + "fonts/" + fontName + ".ttf"
  {
    match window
    case None => "/fonts/" + fontName + ".ttf"
    case Some(pathname) => BasePath(pathname) + "fonts/" + fontName + ".ttf"
  }

  /** Whether a canvas pixel with these channels counts as lit. */
  predicate Lit(r: int, g: int, b: int, threshold: int)
  {
    (r + g + b) as real / 3.0 >= threshold as real
  }

  /** Lit exactly when the channel sum reaches three times the threshold. */
  lemma LitBySum(r: int, g: int, b: int, threshold: int)
    ensures Lit(r, g, b, threshold) <==> r + g + b >= 3 * threshold
  {
  }

  /** The threshold loop: one colour string per RGBA quadruple, the
      foreground where the grey level reaches the threshold. */
  method Threshold(data: seq<int>, threshold: int, fg: string, bg: string) returns (pixels: seq<string>)
    requires |data| % 4 == 0
    ensures 4 * |pixels| == |data|
    ensures forall k :: 0 <= k < |pixels| ==>
      pixels[k] == if Lit(data[4 * k], data[4 * k + 1], data[4 * k + 2], threshold) then fg else bg
  {
    pixels := [];
    var i := 0;
    while i < |data|
      invariant 0 <= i <= |data| && i == 4 * |pixels|
      invariant forall k :: 0 <= k < |pixels| ==>
        pixels[k] == if Lit(data[4 * k], data[4 * k + 1], data[4 * k + 2], threshold) then fg else bg
    {
      var r, g, b := data[i], data[i + 1], data[i + 2];
      var gray := (r + g + b) as real / 3.0;
      pixels := pixels + [if gray >= threshold as real then fg else bg];
      i := i + 4;
    }
  }

  /** The blank-text loop: `n` background entries, pushed one by one. */
  method BlankGrid(n: nat, bg: string) returns (pixels: seq<string>)
    ensures pixels == seq(n, _ => bg)
  {
    pixels := [];
    var i := 0;
    while i < n
      invariant 0 <= i <= n && pixels == seq(i, _ => bg)
    {
      pixels := pixels + [bg];
      i := i + 1;
    }
  }

  /** Where fillText puts the text on the display canvas: centred by its
      measured width horizontally and by the font size vertically, then
      nudged by the metrics' offset. */
  function TextOrigin(width: int, height: int, textWidth: real, m: FontMetrics): (p: (int, int))
    ensures p.0 - m.offsetX == Floor((width as real - textWidth) / 2.0)
    ensures 2 * (p.1 - m.offsetY) <= height - m.fontSize < 2 * (p.1 - m.offsetY) + 2
  {
    (Floor((width as real - textWidth) / 2.0) + m.offsetX, (height - m.fontSize) / 2 + m.offsetY)
  }

  /** The environment a call sees: whether a document exists and whether
      the font has finished loading. */
  datatype Environment = Environment(hasDocument: bool, fontLoaded: bool)

  /** textToPixelsCanvas: None without a document, for a font without
      metrics, or while the font loads; all background for blank text;
      otherwise the thresholded canvas bytes (`image`, what getImageData
      returns after fillText), one entry per display pixel. */
  method TextToPixels(text: string, width: nat, height: nat, fg: string, bg: string, fontName: string,
                      env: Environment, image: seq<int>)
    returns (pixels: Option<seq<string>>)
    requires |image| == 4 * (width * height)
    ensures !env.hasDocument || !KnownFont(fontName) || !env.fontLoaded ==> pixels.None?
    ensures env.hasDocument && KnownFont(fontName) && env.fontLoaded && IsBlank(text) ==>
      pixels == Some(seq(width * height, _ => bg))
    ensures env.hasDocument && KnownFont(fontName) && env.fontLoaded && !IsBlank(text) ==>
      var m := MetricsFor(fontName, HeightKey(height)).value;
      pixels.Some? && |pixels.value| == width * height &&
      forall k :: 0 <= k < |pixels.value| ==>
        pixels.value[k] == if Lit(image[4 * k], image[4 * k + 1], image[4 * k + 2], m.threshold) then fg else bg
  {
    if !env.hasDocument {
      return None;
    }
    if !KnownFont(fontName) {
      return None;
    }
    if !env.fontLoaded {
      return None;
    }
    MetricsForEveryHeight(fontName, height);
    var metrics := MetricsFor(fontName, HeightKey(height)).value;
    if IsBlank(text) {
      var grid := BlankGrid(width * height, bg);
      return Some(grid);
    }
    var grid := Threshold(image, metrics.threshold, fg, bg);
    return Some(grid);
  }

  /** The scrolling grid of textToScrollPixelsCanvas. */
  datatype ScrollGrid = ScrollGrid(pixels: seq<string>, width: nat)

  /** The scrolling canvas is one display, the rounded-up text width, and
      one display wide. */
  function ScrollWidth(displayWidth: nat, measured: real): (w: int)
    requires measured >= 0.0
    ensures w >= 2 * displayWidth && (w - 2 * displayWidth) as real >= measured > (w - 2 * displayWidth - 1) as real
  {
    displayWidth + Ceil(measured) + displayWidth
  }

  /** textToScrollPixelsCanvas: None in the same cases as textToPixelsCanvas;
      otherwise a grid ScrollWidth wide, all background for blank text and
      the thresholded canvas bytes otherwise. */
  method TextToScrollPixels(text: string, displayWidth: nat, height: nat, fg: string, bg: string, fontName: string,
                            env: Environment, measured: real, image: seq<int>)
    returns (result: Option<ScrollGrid>)
    requires measured >= 0.0
    requires |image| == 4 * (ScrollWidth(displayWidth, measured) * height)
    ensures !env.hasDocument || !KnownFont(fontName) || !env.fontLoaded ==> result.None?
    ensures env.hasDocument && KnownFont(fontName) && env.fontLoaded ==>
      result.Some? && result.value.width == ScrollWidth(displayWidth, measured) &&
      |result.value.pixels| == result.value.width * height
    ensures env.hasDocument && KnownFont(fontName) && env.fontLoaded && IsBlank(text) ==>
      result.value.pixels == seq(result.value.width * height, _ => bg)
    ensures env.hasDocument && KnownFont(fontName) && env.fontLoaded && !IsBlank(text) ==>
      var m := MetricsFor(fontName, HeightKey(height)).value;
      forall k :: 0 <= k < |result.value.pixels| ==>
        result.value.pixels[k] == if Lit(image[4 * k], image[4 * k + 1], image[4 * k + 2], m.threshold) then fg else bg
  {
    if !env.hasDocument {
      return None;
    }
    if !KnownFont(fontName) {
      return None;
    }
    if !env.fontLoaded {
      return None;
    }
    MetricsForEveryHeight(fontName, height);
    var metrics := MetricsFor(fontName, HeightKey(height)).value;
    var textWidth := Ceil(measured);
    var extendedWidth: nat := displayWidth + textWidth + displayWidth;
    if IsBlank(text) {
      var grid := BlankGrid(extendedWidth * height, bg);
      return Some(ScrollGrid(grid, extendedWidth));
    }
    var grid := Threshold(image, metrics.threshold, fg, bg);
    return Some(ScrollGrid(grid, extendedWidth));
  }

  /** Where fillText puts the text on the scrolling canvas: one display in,
      nudged by the metrics' offset, and vertically as on the display. */
  function ScrollTextOrigin(displayWidth: int, height: int, m: FontMetrics): (p: (int, int))
    ensures p.0 - m.offsetX == displayWidth
    ensures p.1 == TextOrigin(0, height, 0.0, m).1
  {
    (displayWidth + m.offsetX, (height - m.fontSize) / 2 + m.offsetY)
  }
}
