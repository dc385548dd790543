// The pixel surface every backend shares and every effect paints on: the
// LEDRenderer fields `width`, `height`, `extendedWidth`, `buffer` and its
// `setPixel` and `clear` (src/core/types.ts), which the three backends
// implement with identical code.
module Surface {
  import opened Types
  import Grid

  /** A coloured dot an overlay effect stamps with `setPixel`. */
  datatype Dot = Dot(x: int, y: int, color: Rgb)

  /** The buffer after `setPixel(x, y, c)`: the cell is replaced when it lies
      in the grid and its index lies in the buffer, otherwise nothing changes. */
  function WithPixel(buffer: seq<Rgb>, w: nat, h: nat, x: int, y: int, c: Rgb): seq<Rgb>
  {
    if 0 <= x < w && 0 <= y < h && y * w + x < |buffer| then buffer[y * w + x := c] else buffer
  }

  /** The buffer after stamping `dots` one after another. */
  function StampAll(buffer: seq<Rgb>, w: nat, h: nat, dots: seq<Dot>): (r: seq<Rgb>)
    ensures |r| == |buffer|
  {
    if dots == [] then buffer
    else
      var last := dots[|dots| - 1];
      WithPixel(StampAll(buffer, w, h, dots[..|dots| - 1]), w, h, last.x, last.y, last.color)
  }

  /** On a well-formed buffer setPixel never meets the `idx < length`
      guard: an in-grid cell is always written, anything else dropped. */
  lemma WithPixelEffect(buffer: seq<Rgb>, w: nat, h: nat, x: int, y: int, c: Rgb)
    requires |buffer| == w * h
    ensures 0 <= x < w && 0 <= y < h ==>
      0 <= y * w + x < |buffer| && WithPixel(buffer, w, h, x, y, c) == buffer[y * w + x := c]
    ensures !(0 <= x < w && 0 <= y < h) ==> WithPixel(buffer, w, h, x, y, c) == buffer
  {
    if 0 <= x < w && 0 <= y < h {
      Grid.CellIndex(w, h, x, y);
    }
  }

  /** A cell that no dot addresses keeps its colour through a stamping pass. */
  lemma {:induction false} StampAllKeeps(buffer: seq<Rgb>, w: nat, h: nat, dots: seq<Dot>, x: int, y: int)
    requires |buffer| == w * h && 0 <= x < w && 0 <= y < h
    requires forall k :: 0 <= k < |dots| ==> dots[k].x != x || dots[k].y != y
    ensures y * w + x < |buffer| && StampAll(buffer, w, h, dots)[y * w + x] == buffer[y * w + x]
  {
    Grid.CellIndex(w, h, x, y);
    if dots != [] {
      var prefix := dots[..|dots| - 1];
      StampAllKeeps(buffer, w, h, prefix, x, y);
      var last := dots[|dots| - 1];
      if 0 <= last.x < w && 0 <= last.y < h {
        Grid.IndexInjective(w, h, x, y, last.x, last.y);
      }
    }
  }

  /** The last dot addressing a cell decides its colour. */
  lemma {:induction false} StampAllLast(buffer: seq<Rgb>, w: nat, h: nat, dots: seq<Dot>, k: nat)
    requires |buffer| == w * h && k < |dots|
    requires 0 <= dots[k].x < w && 0 <= dots[k].y < h
    requires forall k' :: k < k' < |dots| ==> dots[k'].x != dots[k].x || dots[k'].y != dots[k].y
    ensures var i := dots[k].y * w + dots[k].x; i < |buffer| && StampAll(buffer, w, h, dots)[i] == dots[k].color
  {
    var d := dots[k];
    var prefix := dots[..|dots| - 1];
    Grid.CellIndex(w, h, d.x, d.y);
    if k < |dots| - 1 {
      assert prefix[k] == d;
      StampAllLast(buffer, w, h, prefix, k);
      var last := dots[|dots| - 1];
      if 0 <= last.x < w && 0 <= last.y < h {
        Grid.IndexInjective(w, h, d.x, d.y, last.x, last.y);
      }
    }
  }

  class LedSurface {
    var width: nat
    var height: nat
    var extendedWidth: nat
    var buffer: seq<Rgb>

    ghost predicate Valid()
      reads this
    {
      |buffer| == width * height
    }

    /** A surface of `width * height` black cells whose scroll source is as
        wide as the display. */
    constructor (width: nat, height: nat)
      ensures Valid()
      ensures this.width == width && this.height == height && extendedWidth == width
      ensures buffer == seq(width * height, _ => Black)
    {
      this.width := width;
      this.height := height;
      extendedWidth := width;
      buffer := [];
      new;
      InitBuffer();
    }

    /** _initBuffer: `width * height` black cells, pushed one by one. */
    method InitBuffer()
      modifies this`buffer
      ensures Valid()
      ensures buffer == seq(width * height, _ => Black)
    {
      buffer := [];
      var i := 0;
      while i < width * height
        invariant 0 <= i <= width * height
        invariant buffer == seq(i, _ => Black)
      {
        buffer := buffer + [Black];
        i := i + 1;
      }
    }

    /** setPixel: bounds-checked write of one cell. */
    method SetPixel(x: int, y: int, c: Rgb)
      modifies this`buffer
      ensures buffer == WithPixel(old(buffer), width, height, x, y, c)
    {
      if 0 <= x < width && 0 <= y < height {
        var idx := y * width + x;
        if idx < |buffer| {
          buffer := buffer[idx := c];
        }
      }
    }

    /** clear: every cell black, the length unchanged. */
    method Clear()
      modifies this`buffer
      ensures buffer == seq(|old(buffer)|, _ => Black)
    {
      var i := 0;
      while i < |buffer|
        invariant 0 <= i <= |buffer| == |old(buffer)|
        invariant forall j :: 0 <= j < i ==> buffer[j] == Black
      {
        buffer := buffer[i := Black];
        i := i + 1;
      }
    }

    /** The row-by-row, column-by-column `setPixel` loop every effect render
        runs: each cell of the grid is written exactly once, with the colour
        `cell(x, y)` gives it. */
    method PaintAll(cell: (int, int) -> Rgb)
      requires Valid()
      modifies this`buffer
      ensures Valid()
      ensures forall j :: 0 <= j < |buffer| ==> buffer[j] == cell(j % width, j / width)
    {
      var y, k := 0, 0;
      while y < height
        invariant 0 <= y <= height && k == y * width && k <= |buffer|
        invariant Valid()
        invariant forall j :: 0 <= j < k ==> buffer[j] == cell(j % width, j / width)
      {
        var x := 0;
        while x < width
          invariant 0 <= x <= width && k == y * width + x && k <= |buffer|
          invariant Valid()
          invariant forall j :: 0 <= j < k ==> buffer[j] == cell(j % width, j / width)
        {
          Grid.CellIndex(width, height, x, y);
          SetPixel(x, y, cell(x, y));
          x, k := x + 1, k + 1;
        }
        Grid.NextRow(y, width);
        y := y + 1;
        Grid.MulMono(y, height, width);
      }
      Grid.MulMono(height, y, width);
    }

    /** The overlay loops: `setPixel` for each dot in turn. */
    method Stamp(dots: seq<Dot>)
      modifies this`buffer
      ensures buffer == StampAll(old(buffer), width, height, dots)
    {
      var i := 0;
      while i < |dots|
        invariant 0 <= i <= |dots|
        invariant buffer == StampAll(old(buffer), width, height, dots[..i])
      {
        assert dots[..i + 1][..i] == dots[..i];
        SetPixel(dots[i].x, dots[i].y, dots[i].color);
        i := i + 1;
      }
      assert dots[..i] == dots;
    }
  }
}
