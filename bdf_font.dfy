// The grid composition of src/core/fonts/bdf-font.ts: the glyph bitmap a
// BDF font draws for a text (its `bindata` rows of '0'/'1' characters and its
// size) is copied into a grid of colour strings, centred on the display, or
// placed one display width in for the scrolling grid. Loading and parsing
// the font are outside the model: the drawn bitmap is an input.
module BdfFont {
  import opened Types
  import opened FontCommon
  import Grid

  /** The file and vertical nudge of one size of a BDF font. */
  datatype BdfConfig = BdfConfig(file: string, yOffset: int)

  /** BDF_FONT_CONFIG: the fonts and sizes shipped. */
  function ConfigFor(fontName: string, heightKey: int): (c: Option<BdfConfig>)
    ensures c.Some? <==> fontName in AvailableFonts() && heightKey in {16, 24, 32}
  {
    if fontName == "VCR_OSD_MONO" then
      if heightKey == 16 then Some(BdfConfig("VCR_OSD_MONO_16.bdf", 0))
      else if heightKey == 24 then Some(BdfConfig("VCR_OSD_MONO_24.bdf", 0))
      else if heightKey == 32 then Some(BdfConfig("VCR_OSD_MONO_32.bdf", 2))
      else None
    else if fontName == "CUSONG" then
      if heightKey == 16 then Some(BdfConfig("CUSONG_16.bdf", -1))
      else if heightKey == 24 then Some(BdfConfig("CUSONG_24.bdf", 0))
      else if heightKey == 32 then Some(BdfConfig("CUSONG_32.bdf", 0))
      else None
    else None
  }

  /** getAvailableBdfFonts: the keys of BDF_FONT_CONFIG, in order. */
  function AvailableFonts(): seq<string>
  {
    ["VCR_OSD_MONO", "CUSONG"]
  }

  /** Every display height selects a size every shipped font has. */
  lemma EveryHeightConfigured(fontName: string, height: int)
    requires fontName in AvailableFonts()
    ensures ConfigFor(fontName, HeightKey(height)).Some?
  {
  }

  /** defaultResolver: under `fonts/` of the page's directory, or of the site
      root when there is no window (`window` holds location.pathname). */
  function DefaultResolver(window: Option<string>, fontName: string, fileName: Option<string>): (url: string)
    ensures window.None? ==> url == "/fonts/" + FileOr(fileName, fontName)
    ensures window.Some? ==> url == BasePath(window.value) + "fonts/" + FileOr(fileName, fontName)
  {
    match window
    case None => "/fonts/" + FileOr(fileName, fontName)
    case Some(pathname) => BasePath(pathname) + "fonts/" + FileOr(fileName, fontName)
  }

  /** The page-relative URL sits in the page's own directory: what precedes
      `fonts/` is a prefix of the pathname ending in its last slash. */
  lemma ResolverUnderPage(pathname: string, fontName: string, fileName: Option<string>)
    ensures var url := DefaultResolver(Some(pathname), fontName, fileName);
      var dir := BasePath(pathname);
      dir <= pathname && url == dir + "fonts/" + FileOr(fileName, fontName) &&
      (dir == [] || dir[|dir| - 1] == '/') && (forall k :: |dir| <= k < |pathname| ==> pathname[k] != '/')
  {
  }

  /** What `font.draw(text)` returns: bitmap rows and the bitmap's size. */
  datatype Bitmap = Bitmap(bindata: seq<string>, width: nat, height: nat)

  /** `bindata[row] || ''`. */
  function RowData(b: Bitmap, row: int): string
  {
    if 0 <= row < |b.bindata| then b.bindata[row] else ""
  }

  /** The colour of grid cell (x, y) when the bitmap's top-left corner is at
      (xOff, yOff): foreground exactly where the bitmap holds a '1'. */
  function GlyphCell(b: Bitmap, xOff: int, yOff: int, fg: string, bg: string, x: int, y: int): string
  {
    var row, col := y - yOff, x - xOff;
    if 0 <= row < b.height && 0 <= col < |RowData(b, row)| && RowData(b, row)[col] == '1' then fg else bg
  }

  /** Whether bitmap position (row, col) comes before (r, c) in the
      row-by-row copy. */
  predicate Before(row: int, col: int, r: int, c: int)
  {
    row < r || (row == r && col < c)
  }

  /** The copy loops shared by both entry points: a background grid of
      width by height, then every bitmap bit that falls inside the grid
      overwrites its cell. */
  method Compose(width: nat, height: nat, b: Bitmap, xOff: int, yOff: int, fg: string, bg: string)
    returns (pixels: seq<string>)
    ensures |pixels| == width * height
    ensures width > 0 ==> forall j :: 0 <= j < |pixels| ==> pixels[j] == GlyphCell(b, xOff, yOff, fg, bg, j % width, j / width)
  {
    pixels := seq(width * height, _ => bg);
    if width == 0 {
      return;
    }
    var row := 0;
    while row < b.height
      invariant 0 <= row <= b.height && |pixels| == width * height
      invariant forall j :: 0 <= j < |pixels| ==>
        pixels[j] == if Before(j / width - yOff, j % width - xOff, row, 0) then GlyphCell(b, xOff, yOff, fg, bg, j % width, j / width) else bg
    {
      var rowData := RowData(b, row);
      var col := 0;
      while col < |rowData|
        invariant 0 <= col <= |rowData| && |pixels| == width * height
        invariant forall j :: 0 <= j < |pixels| ==>
          pixels[j] == if Before(j / width - yOff, j % width - xOff, row, col) then GlyphCell(b, xOff, yOff, fg, bg, j % width, j / width) else bg
      {
        var px := xOff + col;
        var py := yOff + row;
        if px >= 0 && px < width && py >= 0 && py < height {
          var idx := py * width + px;
          Grid.CellIndex(width, height, px, py);
          forall j | 0 <= j < |pixels| && j != idx
            ensures j / width - yOff != row || j % width - xOff != col
          {
            Grid.IndexCell(width, height, j);
          }
          pixels := pixels[idx := if rowData[col] == '1' then fg else bg];
        } else {
          forall j | 0 <= j < |pixels|
            ensures j / width - yOff != row || j % width - xOff != col
          {
            Grid.IndexCell(width, height, j);
          }
        }
        col := col + 1;
      }
      row := row + 1;
    }
  }

  /** textToPixelsBdf: None while the font of this size is not loaded
      (`cached` holds the loaded font's config) or when drawing throws (the
      `drawn` input); all background for blank text; otherwise the bitmap
      centred on the display and nudged down by the size's yOffset. */
  method TextToPixels(text: string, width: nat, height: nat, fg: string, bg: string, cached: Option<BdfConfig>,
                      drawn: Option<Bitmap>)
    returns (pixels: Option<seq<string>>)
    ensures cached.None? ==> pixels.None?
    ensures cached.Some? && IsBlank(text) ==> pixels == Some(seq(width * height, _ => bg))
    ensures cached.Some? && !IsBlank(text) && drawn.None? ==> pixels.None?
    ensures cached.Some? && !IsBlank(text) && drawn.Some? ==>
      var config := cached.value;
      pixels.Some? && |pixels.value| == width * height &&
      (width > 0 ==> forall j :: 0 <= j < |pixels.value| ==>
        pixels.value[j] == GlyphCell(drawn.value, Origin(width, drawn.value.width), Origin(height, drawn.value.height) + config.yOffset,
                                     fg, bg, j % width, j / width))
  {
    if cached.None? {
      return None;
    }
    var config := cached.value;
    if IsBlank(text) {
      return Some(seq(width * height, _ => bg));
    }
    if drawn.None? {
      return None;
    }
    var bitmap := drawn.value;
    var xOffset := Origin(width, bitmap.width);
    var yOffset := Origin(height, bitmap.height) + config.yOffset;
    var grid := Compose(width, height, bitmap, xOffset, yOffset, fg, bg);
    return Some(grid);
  }

  /** `Math.floor((size - extent) / 2)`: Dafny's division by 2 already
      rounds towards negative infinity. */
  function Origin(size: int, extent: int): (o: int)
    ensures 2 * o <= size - extent < 2 * o + 2
  {
    (size - extent) / 2
  }

  /** Centring: a bitmap no wider than the display starts inside it, and its
      right margin equals its left one or exceeds it by one. */
  lemma Centred(size: nat, extent: nat)
    requires extent <= size
    ensures var o := Origin(size, extent);
      0 <= o && o + extent <= size && (size - (o + extent)) - o in {0, 1}
  {
  }

  /** The scrolling grid of textToScrollPixelsBdf. */
  datatype ScrollGrid = ScrollGrid(pixels: seq<string>, width: nat)

  /** textToScrollPixelsBdf: None while the font is not loaded; blank text gives an
      all-background grid three displays wide; otherwise the grid is one
      display, the bitmap, and one display wide, with the bitmap starting
      one display in. None when drawing throws. */
  method TextToScrollPixels(text: string, displayWidth: nat, height: nat, fg: string, bg: string, cached: Option<BdfConfig>,
                            drawn: Option<Bitmap>)
    returns (result: Option<ScrollGrid>)
    ensures cached.None? ==> result.None?
    ensures cached.Some? && IsBlank(text) ==> result == Some(ScrollGrid(seq(3 * displayWidth * height, _ => bg), 3 * displayWidth))
    ensures cached.Some? && !IsBlank(text) && drawn.None? ==> result.None?
    ensures cached.Some? && !IsBlank(text) && drawn.Some? ==>
      var config := cached.value;
      var w := 2 * displayWidth + drawn.value.width;
      result.Some? && result.value.width == w && |result.value.pixels| == w * height &&
      (w > 0 ==> forall j :: 0 <= j < |result.value.pixels| ==>
        result.value.pixels[j] == GlyphCell(drawn.value, displayWidth, Origin(height, drawn.value.height) + config.yOffset,
                                            fg, bg, j % w, j / w))
  {
    if cached.None? {
      return None;
    }
    var config := cached.value;
    if IsBlank(text) {
      var extendedWidth := displayWidth * 3;
      return Some(ScrollGrid(seq(extendedWidth * height, _ => bg), extendedWidth));
    }
    if drawn.None? {
      return None;
    }
    var bitmap := drawn.value;
    var extendedWidth := displayWidth + bitmap.width + displayWidth;
    var yOffset := Origin(height, bitmap.height) + config.yOffset;
    var grid := Compose(extendedWidth, height, bitmap, displayWidth, yOffset, fg, bg);
    return Some(ScrollGrid(grid, extendedWidth));
  }

  /** The first display width of the scrolling grid is blank, so the text
      scrolls in from the right edge. */
  lemma ScrollLeadIn(b: Bitmap, displayWidth: nat, yOff: int, fg: string, bg: string, x: int, y: int)
    requires x < displayWidth
    ensures GlyphCell(b, displayWidth, yOff, fg, bg, x, y) == bg
  {
  }

  /** A cell shows the foreground exactly where the bitmap holds a '1' at
      the matching row and column. */
  lemma GlyphBits(b: Bitmap, xOff: int, yOff: int, fg: string, bg: string, x: int, y: int)
    requires fg != bg
    ensures GlyphCell(b, xOff, yOff, fg, bg, x, y) == fg <==>
      0 <= y - yOff < b.height && 0 <= y - yOff < |b.bindata| && 0 <= x - xOff < |b.bindata[y - yOff]| &&
      b.bindata[y - yOff][x - xOff] == '1'
  {
  }
}
