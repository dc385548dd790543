// The fire effect of src/core/effects/ambient-effects.ts: a heat map that
// cools, rises by averaging each cell with its neighbours, and is reseeded
// along the bottom row, shown through a 256-entry palette.
module Fire {
  import opened Types
  import opened JsMath
  import Grid

  /** Palette entry `i`: black to red, red to yellow, yellow to white, then white. */
  function PaletteEntry(i: int): Rgb
  {
    if i < 64 then Rgb((i * 4) as real, 0.0, 0.0)
    else if i < 128 then Rgb(255.0, ((i - 64) * 4) as real, 0.0)
    else if i < 192 then Rgb(255.0, 255.0, ((i - 128) * 4) as real)
    else Rgb(255.0, 255.0, 255.0)
  }

  /** _createFirePalette: the 256 entries in order. */
  method CreatePalette() returns (palette: seq<Rgb>)
    ensures |palette| == 256
    ensures forall i :: 0 <= i < 256 ==> palette[i] == PaletteEntry(i)
  {
    palette := [];
    var i := 0;
    while i < 256
      invariant 0 <= i <= 256 && |palette| == i
      invariant forall j :: 0 <= j < i ==> palette[j] == PaletteEntry(j)
    {
      palette := palette + [PaletteEntry(i)];
      i := i + 1;
    }
  }

  /** Every palette entry is a byte colour. */
  lemma PaletteInRange(i: int)
    requires 0 <= i < 256
    ensures PaletteEntry(i).InByteRange()
  {
  }

  /** The palette never darkens: each channel is non-decreasing in the index. */
  lemma PaletteMonotone(i: int, j: int)
    requires 0 <= i <= j < 256
    ensures PaletteEntry(i).r <= PaletteEntry(j).r
    ensures PaletteEntry(i).g <= PaletteEntry(j).g
    ensures PaletteEntry(i).b <= PaletteEntry(j).b
  {
  }

  /** The bands: only red grows below 64, only green from 64, only blue from
      128, and everything is white from 192 on. */
  lemma PaletteBands(i: int)
    requires 0 <= i < 256
    ensures i < 64 ==> PaletteEntry(i).g == 0.0 && PaletteEntry(i).b == 0.0 && PaletteEntry(i).r == 4.0 * i as real
    ensures 64 <= i < 128 ==> PaletteEntry(i).r == 255.0 && PaletteEntry(i).b == 0.0 && PaletteEntry(i).g == 4.0 * (i - 64) as real
    ensures 128 <= i < 192 ==> PaletteEntry(i).r == 255.0 && PaletteEntry(i).g == 255.0 && PaletteEntry(i).b == 4.0 * (i - 128) as real
    ensures 192 <= i ==> PaletteEntry(i) == Rgb(255.0, 255.0, 255.0)
  {
  }

  /** Every heat value lies in [0, 255]. */
  predicate HeatInRange(heat: seq<real>)
  {
    forall i :: 0 <= i < |heat| ==> 0.0 <= heat[i] <= 255.0
  }

  /** The cooling pass: each cell loses up to 10, never going below 0. */
  function Cooled(heat: seq<real>, host: Host): (r: seq<real>)
    requires host.Valid()
    ensures |r| == |heat|
  {
    seq(|heat|, i requires 0 <= i < |heat| => MaxR(0.0, heat[i] - host.Draw(i) * 10.0))
  }

  /** The rising value of cell (x, y): the cell below it and its left and
      right neighbours (clamped to the row) summed and divided by 3.05. */
  function Rise(heat: seq<real>, width: nat, x: nat, y: nat): real
    requires x < width && y * width + 2 * width <= |heat|
  {
    (heat[(y + 1) * width + x] + heat[y * width + Max(0, x - 1)] + heat[y * width + Min(width - 1, x + 1)]) / 3.05
  }

  /** The rising pass in row-major order up to cell (x, y): every row above
      `y` done and the first `x` cells of row `y`, each cell reading its left
      neighbour as already updated. */
  function Propagate(heat: seq<real>, width: nat, y: nat, x: nat): (r: seq<real>)
    requires x <= width && y * width + 2 * width <= |heat|
    ensures |r| == |heat|
    decreases y, x
  {
    if x == 0 then
      if y == 0 then heat
      else
        Grid.RowsFit(y - 1, y + 2, width);
        Propagate(heat, width, y - 1, width)
    else
      var h := Propagate(heat, width, y, x - 1);
      h[y * width + x - 1 := Rise(h, width, x - 1, y)]
  }

  /** Cooling keeps heat in range. */
  lemma CooledInRange(heat: seq<real>, host: Host)
    requires host.Valid() && HeatInRange(heat)
    ensures HeatInRange(Cooled(heat, host))
  {
  }

  /** A rising value of in-range heat is in range (at most 765 / 3.05). */
  lemma RiseInRange(heat: seq<real>, width: nat, x: nat, y: nat)
    requires x < width && y * width + 2 * width <= |heat| && HeatInRange(heat)
    ensures 0.0 <= Rise(heat, width, x, y) <= 255.0
  {
    Grid.NextRow(y, width);
  }

  /** The rising pass keeps heat in range. */
  lemma {:induction false} PropagateInRange(heat: seq<real>, width: nat, y: nat, x: nat)
    requires x <= width && y * width + 2 * width <= |heat| && HeatInRange(heat)
    ensures HeatInRange(Propagate(heat, width, y, x))
    decreases y, x
  {
    if x == 0 {
      if y > 0 {
        Grid.RowsFit(y - 1, y + 2, width);
        PropagateInRange(heat, width, y - 1, width);
      }
    } else {
      PropagateInRange(heat, width, y, x - 1);
      RiseInRange(Propagate(heat, width, y, x - 1), width, x - 1, y);
    }
  }

  /** The rising pass leaves every cell from (x, y) on untouched. */
  lemma {:induction false} PropagateKeepsRest(heat: seq<real>, width: nat, y: nat, x: nat, j: int)
    requires x <= width && y * width + 2 * width <= |heat| && y * width + x <= j < |heat|
    ensures Propagate(heat, width, y, x)[j] == heat[j]
    decreases y, x
  {
    if x == 0 {
      if y > 0 {
        Grid.RowsFit(y - 1, y + 2, width);
        Grid.NextRow(y - 1, width);
        PropagateKeepsRest(heat, width, y - 1, width, j);
      }
    } else {
      PropagateKeepsRest(heat, width, y, x - 1, j);
    }
  }

  /** The cooling loop of _stepFire, one draw per cell. */
  method Cool(heat: seq<real>, host: Host) returns (next: seq<real>)
    requires host.Valid()
    ensures next == Cooled(heat, host)
  {
    next := heat;
    var i := 0;
    while i < |heat|
      invariant 0 <= i <= |heat| && |next| == |heat|
      invariant forall j :: 0 <= j < i ==> next[j] == MaxR(0.0, heat[j] - host.Draw(j) * 10.0)
      invariant forall j :: i <= j < |heat| ==> next[j] == heat[j]
    {
      next := next[i := MaxR(0.0, next[i] - host.Draw(i) * 10.0)];
      i := i + 1;
    }
  }

  /** The rising loops of _stepFire, over every row but the bottom one, in place. */
  method RiseAll(heat: seq<real>, width: nat, height: nat) returns (next: seq<real>)
    requires width >= 1 && height >= 2 && |heat| == width * height
    ensures next == Propagate(heat, width, height - 2, width)
  {
    Grid.RowsFit(0, height, width);
    next := heat;
    var y := 0;
    while y < height - 1
      invariant 0 <= y <= height - 1
      invariant y == 0 ==> next == heat
      invariant y > 0 ==> (y - 1) * width + 2 * width <= |heat|
      invariant y > 0 ==> next == Propagate(heat, width, y - 1, width)
    {
      Grid.RowsFit(y, height, width);
      if y > 0 {
        Grid.NextRow(y - 1, width);
        assert Propagate(heat, width, y, 0) == Propagate(heat, width, y - 1, width);
      }
      next := RiseRow(heat, next, width, y);
      y := y + 1;
      Grid.RowsFit(y - 1, height, width);
    }
  }

  /** One row of the rising loops: the cells of row `y` in order. */
  method RiseRow(heat: seq<real>, current: seq<real>, width: nat, y: nat) returns (next: seq<real>)
    requires width >= 1 && y * width + 2 * width <= |heat|
    requires current == Propagate(heat, width, y, 0)
    ensures next == Propagate(heat, width, y, width)
  {
    next := current;
    var x := 0;
    while x < width
      invariant 0 <= x <= width
      invariant next == Propagate(heat, width, y, x)
    {
      Grid.NextRow(y, width);
      next := next[y * width + x := Rise(next, width, x, y)];
      x := x + 1;
    }
  }

  /** The draw at which bottom column x of the reseeding loop decides, the
      loop starting at draw `first`: each column before it took one draw,
      and two if it was reseeded. */
  function SparkStart(host: Host, first: nat, x: nat): nat
    requires host.Valid()
  {
    if x == 0 then first
    else
      var d := SparkStart(host, first, x - 1);
      d + (if host.Draw(d) < 0.6 then 2 else 1)
  }

  /** A bottom cell after the loop's pass with draws from `d` on: a new
      spark of 180 + r * 75 when draw `d` falls below 0.6. */
  function Sparked(h: real, host: Host, d: nat): real
    requires host.Valid()
  {
    if host.Draw(d) < 0.6 then 180.0 + host.Draw(d + 1) * 75.0 else h
  }

  /** `next` is `heat` with the first x bottom columns through the loop. */
  ghost predicate SparkPrefix(heat: seq<real>, next: seq<real>, width: nat, height: nat, host: Host, first: nat, x: nat)
    requires host.Valid()
  {
    height >= 1 && |heat| == width * height && |next| == |heat| && x <= width &&
    (forall j :: 0 <= j < (height - 1) * width + x ==> j >= (height - 1) * width ==>
      next[j] == Sparked(heat[j], host, SparkStart(host, first, j - (height - 1) * width))) &&
    (forall j :: 0 <= j < |heat| && !((height - 1) * width <= j < (height - 1) * width + x) ==> next[j] == heat[j])
  }

  /** One more pass of the reseeding loop over bottom column x. */
  lemma SparkPrefixNext(heat: seq<real>, next: seq<real>, width: nat, height: nat, host: Host, first: nat, x: nat)
    requires host.Valid() && SparkPrefix(heat, next, width, height, host, first, x) && x < width
    ensures 0 <= (height - 1) * width + x < |next|
    ensures var i := (height - 1) * width + x;
      SparkPrefix(heat, next[i := Sparked(heat[i], host, SparkStart(host, first, x))], width, height, host, first, x + 1)
    ensures var d := SparkStart(host, first, x); SparkStart(host, first, x + 1) == d + (if host.Draw(d) < 0.6 then 2 else 1)
  {
    Grid.CellIndex(width, height, x, height - 1);
  }

  /** A bottom cell keeps its heat or becomes a spark in [180, 255). */
  lemma SparkedRange(h: real, host: Host, d: nat)
    requires host.Valid()
    ensures Sparked(h, host, d) == h || 180.0 <= Sparked(h, host, d) < 255.0
  {
  }

  /** The reseeding loop of _stepFire: each bottom column is set to 180 + r * 75
      when its draw falls below 0.6. */
  method Reseed(heat: seq<real>, width: nat, height: nat, host: Host, first: nat) returns (next: seq<real>)
    requires host.Valid() && height >= 1 && |heat| == width * height
    ensures |next| == |heat|
    ensures forall j :: 0 <= j < (height - 1) * width ==> next[j] == heat[j]
    ensures forall j :: (height - 1) * width <= j < |heat| ==>
      next[j] == Sparked(heat[j], host, SparkStart(host, first, j - (height - 1) * width))
    ensures forall j :: (height - 1) * width <= j < |heat| ==> next[j] == heat[j] || 180.0 <= next[j] < 255.0
  {
    Grid.MulMono(height - 1, height, width);
    next := heat;
    var x, d := 0, first;
    while x < width
      invariant 0 <= x <= width && d == SparkStart(host, first, x)
      invariant SparkPrefix(heat, next, width, height, host, first, x)
    {
      SparkPrefixNext(heat, next, width, height, host, first, x);
      var idx := (height - 1) * width + x;
      if host.Draw(d) < 0.6 {
        next := next[idx := 180.0 + host.Draw(d + 1) * 75.0];
        d := d + 2;
      } else {
        assert next[idx := Sparked(heat[idx], host, d)] == next;
        d := d + 1;
      }
      x := x + 1;
    }
    SparkFacts(heat, next, width, height, host, first);
  }

  /** What a finished reseeding loop leaves: the rows above untouched, and
      each bottom cell kept or a new spark in [180, 255). */
  lemma SparkFacts(heat: seq<real>, next: seq<real>, width: nat, height: nat, host: Host, first: nat)
    requires host.Valid() && SparkPrefix(heat, next, width, height, host, first, width)
    ensures forall j :: 0 <= j < (height - 1) * width ==> next[j] == heat[j]
    ensures forall j :: (height - 1) * width <= j < |heat| ==>
      next[j] == Sparked(heat[j], host, SparkStart(host, first, j - (height - 1) * width))
    ensures forall j :: (height - 1) * width <= j < |heat| ==> next[j] == heat[j] || 180.0 <= next[j] < 255.0
  {
    Grid.NextRow(height - 1, width);
    forall j | (height - 1) * width <= j < |heat|
      ensures next[j] == heat[j] || 180.0 <= next[j] < 255.0
    {
      SparkedRange(heat[j], host, SparkStart(host, first, j - (height - 1) * width));
    }
  }

  /** _stepFire: cool every cell, let heat rise through all rows but the
      bottom one, then reseed bottom cells with probability 0.6. The draws
      are consumed in that order: one per cell, then one per bottom column
      plus one more for each reseeded column. */
  method Step(heat: seq<real>, width: nat, height: nat, host: Host) returns (next: seq<real>)
    requires host.Valid() && |heat| == width * height
    ensures |next| == |heat|
    ensures width >= 1 && height >= 2 ==>
      forall j :: 0 <= j < (height - 1) * width ==>
        next[j] == Propagate(Cooled(heat, host), width, height - 2, width)[j]
    ensures width >= 1 && height >= 1 ==>
      forall j :: (height - 1) * width <= j < |heat| ==>
        next[j] == Sparked(Cooled(heat, host)[j], host, SparkStart(host, width * height, j - (height - 1) * width))
    ensures width >= 1 && height >= 1 ==>
      forall j :: (height - 1) * width <= j < |heat| ==>
        next[j] == Cooled(heat, host)[j] || 180.0 <= next[j] < 255.0
    ensures HeatInRange(heat) ==> HeatInRange(next)
  {
    next := Cool(heat, host);
    var cooled := next;
    if HeatInRange(heat) {
      CooledInRange(heat, host);
    }
    if width >= 1 && height >= 2 {
      Grid.RowsFit(height - 2, height, width);
      Grid.NextRow(height - 2, width);
      next := RiseAll(cooled, width, height);
      forall j | (height - 1) * width <= j < |heat|
        ensures next[j] == cooled[j]
      {
        PropagateKeepsRest(cooled, width, height - 2, width, j);
      }
      if HeatInRange(heat) {
        PropagateInRange(cooled, width, height - 2, width);
      }
    }
    if width >= 1 && height >= 1 {
      next := Reseed(next, width, height, host, width * height);
    }
  }

  /** _renderFire's colour of cell (x, y): the palette entry at the heat,
      capped at 255 and floored. */
  function Cell(heat: seq<real>, palette: seq<Rgb>, width: nat, x: int, y: int): Rgb
  {
    var idx := y * width + x;
    if 0 <= idx < |heat| then
      var h := Floor(MinR(255.0, heat[idx]));
      if 0 <= h < |palette| then palette[h] else Black
    else Black
  }

  /** With heat in range the palette index is always in [0, 255], so each
      cell shows exactly its palette entry. */
  lemma CellIsPaletteEntry(heat: seq<real>, palette: seq<Rgb>, width: nat, x: int, y: int)
    requires HeatInRange(heat) && |palette| == 256
    requires forall i :: 0 <= i < 256 ==> palette[i] == PaletteEntry(i)
    requires 0 <= y * width + x < |heat|
    ensures 0 <= Floor(MinR(255.0, heat[y * width + x])) <= 255
    ensures Cell(heat, palette, width, x, y) == PaletteEntry(Floor(MinR(255.0, heat[y * width + x])))
  {
  }
}
