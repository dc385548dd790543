// The water effect of src/core/effects/ambient-effects.ts: a two-buffer
// ripple simulation over the interior cells, with random droplets.
module Water {
  import opened Types
  import opened JsMath
  import Grid

  /** The row-major index of cell (x, y). */
  function Idx(width: nat, height: nat, x: int, y: int): (i: int)
    requires 0 <= x < width && 0 <= y < height
    ensures 0 <= i < width * height
  {
    Grid.CellIndex(width, height, x, y);
    y * width + x
  }

  predicate InGrid(width: nat, height: nat, x: int, y: int)
  {
    0 <= x < width && 0 <= y < height
  }

  /** The cells the ripple loops visit: neither in the first or last row nor
      in the first or last column. */
  predicate Interior(width: nat, height: nat, x: int, y: int)
  {
    1 <= x < width - 1 && 1 <= y < height - 1
  }

  /** The new height of interior cell (x, y): half the sum of its four
      neighbours in the previous buffer, minus its current height, damped. */
  function RippleCell(previous: seq<real>, current: seq<real>, width: nat, height: nat, damping: real,
                      x: int, y: int): real
    requires |previous| == width * height && |current| == width * height && Interior(width, height, x, y)
  {
    (( previous[Idx(width, height, x, y - 1)] + previous[Idx(width, height, x, y + 1)]
     + previous[Idx(width, height, x - 1, y)] + previous[Idx(width, height, x + 1, y)]) / 2.0
     - current[Idx(width, height, x, y)]) * damping
  }

  /** Writing one cell changes that cell and no other. */
  lemma WriteCell(buf: seq<real>, width: nat, height: nat, x: int, y: int, v: real)
    requires |buf| == width * height && InGrid(width, height, x, y)
    ensures forall x', y' {:trigger Idx(width, height, x', y')} :: InGrid(width, height, x', y') ==>
      buf[Idx(width, height, x, y) := v][Idx(width, height, x', y')] ==
        if x' == x && y' == y then v else buf[Idx(width, height, x', y')]
  {
    forall x', y' | InGrid(width, height, x', y')
      ensures buf[Idx(width, height, x, y) := v][Idx(width, height, x', y')] ==
        if x' == x && y' == y then v else buf[Idx(width, height, x', y')]
    {
      if x' != x || y' != y {
        Grid.IndexInjective(width, height, x, y, x', y');
      }
    }
  }

  /** The state of the ripple loops after the cells before (x, y) in row-major order. */
  ghost predicate RippledUpTo(next: seq<real>, previous: seq<real>, current: seq<real>, width: nat, height: nat,
                        damping: real, x: int, y: int)
    requires |next| == width * height && |previous| == width * height && |current| == width * height
  {
    forall x', y' {:trigger Idx(width, height, x', y')} :: InGrid(width, height, x', y') ==>
      next[Idx(width, height, x', y')] ==
        if Interior(width, height, x', y') && (y' < y || (y' == y && x' < x))
        then RippleCell(previous, current, width, height, damping, x', y')
        else current[Idx(width, height, x', y')]
  }

  /** Rippling cell (x, y) moves the loop state on by one cell. */
  lemma RippleOne(next: seq<real>, previous: seq<real>, current: seq<real>, width: nat, height: nat,
                  damping: real, x: int, y: int)
    requires |next| == width * height && |previous| == width * height && |current| == width * height
    requires Interior(width, height, x, y) && RippledUpTo(next, previous, current, width, height, damping, x, y)
    ensures next[Idx(width, height, x, y)] == current[Idx(width, height, x, y)]
    ensures RippledUpTo(next[Idx(width, height, x, y) := RippleCell(previous, current, width, height, damping, x, y)],
                        previous, current, width, height, damping, x + 1, y)
  {
    WriteCell(next, width, height, x, y, RippleCell(previous, current, width, height, damping, x, y));
  }

  /** Past the last interior column, the loop state is that of the next row's start. */
  lemma NextRowState(next: seq<real>, previous: seq<real>, current: seq<real>, width: nat, height: nat,
                     damping: real, x: int, y: int)
    requires |next| == width * height && |previous| == width * height && |current| == width * height
    requires x >= width - 1 && RippledUpTo(next, previous, current, width, height, damping, x, y)
    ensures RippledUpTo(next, previous, current, width, height, damping, 1, y + 1)
  {
  }

  /** The copy loop of _stepWater. */
  method Copy(source: seq<real>, target: seq<real>) returns (r: seq<real>)
    requires |target| == |source|
    ensures r == source
  {
    r := target;
    var i := 0;
    while i < |source|
      invariant 0 <= i <= |source| && |r| == |source|
      invariant r[..i] == source[..i]
    {
      r := r[i := source[i]];
      i := i + 1;
    }
    assert r == r[..i] && source == source[..i];
  }

  /** One row of the ripple loops. */
  method RippleRow(next: seq<real>, temp: seq<real>, current: seq<real>, width: nat, height: nat,
                   damping: real, y: int) returns (r: seq<real>)
    requires |next| == width * height && |temp| == width * height && |current| == width * height
    requires 1 <= y < height - 1 && RippledUpTo(next, temp, current, width, height, damping, 1, y)
    ensures |r| == |next| && RippledUpTo(r, temp, current, width, height, damping, 1, y + 1)
  {
    r := next;
    var x := 1;
    while x < width - 1
      invariant 1 <= x && (width >= 2 ==> x <= width - 1) && |r| == |next|
      invariant RippledUpTo(r, temp, current, width, height, damping, x, y)
    {
      var idx := y * width + x;
      assert idx == Idx(width, height, x, y);
      assert (y - 1) * width + x == Idx(width, height, x, y - 1);
      assert (y + 1) * width + x == Idx(width, height, x, y + 1);
      assert y * width + (x - 1) == Idx(width, height, x - 1, y);
      assert y * width + (x + 1) == Idx(width, height, x + 1, y);
      RippleOne(r, temp, current, width, height, damping, x, y);
      var v := ((temp[(y - 1) * width + x] + temp[(y + 1) * width + x]
                 + temp[y * width + (x - 1)] + temp[y * width + (x + 1)]) / 2.0 - r[idx]) * damping;
      assert v == RippleCell(temp, current, width, height, damping, x, y);
      r := r[idx := v];
      x := x + 1;
    }
    NextRowState(r, temp, current, width, height, damping, x, y);
  }

  /** The copy loop and the ripple loops of _stepWater: `previous` becomes the
      old `current`, and each interior cell of `current` gets its ripple value
      computed from the old buffers; every other cell keeps its height. */
  method Ripple(current: seq<real>, previous: seq<real>, width: nat, height: nat, damping: real)
    returns (nextCurrent: seq<real>, nextPrevious: seq<real>)
    requires |current| == width * height && |previous| == width * height
    ensures nextPrevious == current && |nextCurrent| == |current|
    ensures forall x, y {:trigger Idx(width, height, x, y)} :: Interior(width, height, x, y) ==>
      nextCurrent[Idx(width, height, x, y)] == RippleCell(previous, current, width, height, damping, x, y)
    ensures forall x, y {:trigger Idx(width, height, x, y)} ::
      InGrid(width, height, x, y) && !Interior(width, height, x, y) ==>
        nextCurrent[Idx(width, height, x, y)] == current[Idx(width, height, x, y)]
  {
    var temp := previous;
    nextPrevious := Copy(current, previous);
    nextCurrent := current;
    var y := 1;
    while y < height - 1
      invariant 1 <= y && (height >= 2 ==> y <= height - 1) && |nextCurrent| == |current|
      invariant RippledUpTo(nextCurrent, temp, current, width, height, damping, 1, y)
    {
      nextCurrent := RippleRow(nextCurrent, temp, current, width, height, damping, y);
      y := y + 1;
    }
  }

  /** A droplet coordinate on a side of `n` cells: `floor(d * (n - 2)) + 1`. */
  function Pick(d: real, n: nat): int
  {
    Floor(d * (n - 2) as real) + 1
  }

  /** On a side of at least 3 cells, a draw in [0, 1) picks an inner cell. */
  lemma PickInside(d: real, n: nat)
    requires 0.0 <= d < 1.0 && n >= 3
    ensures 1 <= Pick(d, n) <= n - 2
  {
    var m := (n - 2) as real;
    assert d * m < m by {
      assert m - d * m == (1.0 - d) * m;
    }
    assert 0.0 <= d * m;
  }

  /** Whether this frame's droplet lands on cell (x, y): draw 0 is below 0.1
      and draws 1 and 2 pick x and y. */
  predicate DropsOn(host: Host, width: nat, height: nat, x: int, y: int)
    requires host.Valid()
  {
    host.Draw(0) < 0.1 && x == Pick(host.Draw(1), width) && y == Pick(host.Draw(2), height)
  }

  /** The droplet of _stepWater: with probability 0.1 one cell, picked by
      two more draws from the interior range, is set to 255. A pick outside
      the buffer (possible only when a side is shorter than 3) writes nothing. */
  method Droplet(current: seq<real>, width: nat, height: nat, host: Host) returns (next: seq<real>)
    requires host.Valid() && |current| == width * height
    ensures |next| == |current|
    ensures forall j :: 0 <= j < |next| ==> next[j] == current[j] || next[j] == 255.0
    ensures width >= 3 && height >= 3 ==>
      forall x, y {:trigger Idx(width, height, x, y)} ::
        InGrid(width, height, x, y) && !Interior(width, height, x, y) ==>
          next[Idx(width, height, x, y)] == current[Idx(width, height, x, y)]
    ensures width >= 3 && height >= 3 ==>
      forall x, y {:trigger Idx(width, height, x, y)} :: InGrid(width, height, x, y) ==>
        next[Idx(width, height, x, y)] == if DropsOn(host, width, height, x, y) then 255.0 else current[Idx(width, height, x, y)]
  {
    next := current;
    if host.Draw(0) < 0.1 {
      var x := Pick(host.Draw(1), width);
      var y := Pick(host.Draw(2), height);
      var idx := y * width + x;
      if 0 <= idx < |next| {
        if width >= 3 && height >= 3 {
          PickInside(host.Draw(1), width);
          PickInside(host.Draw(2), height);
          WriteCell(next, width, height, x, y, 255.0);
          assert idx == Idx(width, height, x, y);
        }
        next := next[idx := 255.0];
      }
    }
  }

  /** _stepWater: the ripple, then the droplet (draws 0 to 2). */
  method Step(current: seq<real>, previous: seq<real>, width: nat, height: nat, damping: real, host: Host)
    returns (nextCurrent: seq<real>, nextPrevious: seq<real>)
    requires host.Valid() && |current| == width * height && |previous| == width * height
    ensures nextPrevious == current && |nextCurrent| == |current|
    ensures forall x, y {:trigger Idx(width, height, x, y)} :: Interior(width, height, x, y) ==>
      nextCurrent[Idx(width, height, x, y)] ==
        if DropsOn(host, width, height, x, y) then 255.0 else RippleCell(previous, current, width, height, damping, x, y)
    ensures width >= 3 && height >= 3 ==>
      forall x, y {:trigger Idx(width, height, x, y)} ::
        InGrid(width, height, x, y) && !Interior(width, height, x, y) ==>
          nextCurrent[Idx(width, height, x, y)] == current[Idx(width, height, x, y)]
  {
    var rippled;
    rippled, nextPrevious := Ripple(current, previous, width, height, damping);
    nextCurrent := Droplet(rippled, width, height, host);
    if width < 3 || height < 3 {
      // No cell is interior: the interior claim holds vacuously.
      assert forall x, y :: !Interior(width, height, x, y);
    }
  }

  /** Every border cell of a buffer is still. */
  ghost predicate BorderStill(buf: seq<real>, width: nat, height: nat)
    requires |buf| == width * height
  {
    forall x, y {:trigger Idx(width, height, x, y)} ::
      InGrid(width, height, x, y) && !Interior(width, height, x, y) ==> buf[Idx(width, height, x, y)] == 0.0
  }

  /** On a grid at least 3 wide and high, still borders stay still: the
      ripple only visits interior cells and droplets only land inside. */
  lemma StepKeepsBorderStill(current: seq<real>, previous: seq<real>, nextCurrent: seq<real>, nextPrevious: seq<real>,
                             width: nat, height: nat, damping: real)
    requires width >= 3 && height >= 3
    requires |current| == width * height && |previous| == width * height && |nextCurrent| == width * height
    requires BorderStill(current, width, height)
    requires nextPrevious == current
    requires forall x, y {:trigger Idx(width, height, x, y)} ::
      InGrid(width, height, x, y) && !Interior(width, height, x, y) ==>
        nextCurrent[Idx(width, height, x, y)] == current[Idx(width, height, x, y)]
    ensures BorderStill(nextCurrent, width, height) && BorderStill(nextPrevious, width, height)
  {
  }

  /** _renderWater's colour for a height: intensity is twice the magnitude,
      capped at 255; red shows only above 200, green is 0.8 or 0.3 of the
      intensity, blue is 50 brighter, capped at 255. */
  function Color(value: real): Rgb
  {
    var intensity := MinR(255.0, AbsR(value) * 2.0);
    Rgb(if intensity > 200.0 then intensity else 0.0,
        if intensity > 150.0 then intensity * 0.8 else intensity * 0.3,
        MinR(255.0, 50.0 + intensity))
  }

  /** The colour of cell (x, y); a missing height reads as still water. */
  function Cell(current: seq<real>, width: nat, x: int, y: int): Rgb
  {
    var idx := y * width + x;
    Color(if 0 <= idx < |current| then current[idx] else 0.0)
  }

  /** Water colours are byte colours, at least 50 blue, red only when bright,
      and depend only on the magnitude of the height. */
  lemma ColorInRange(value: real)
    ensures Color(value).InByteRange()
    ensures Color(value).b >= 50.0
    ensures Color(value).r > 0.0 <==> AbsR(value) * 2.0 > 200.0
    ensures Color(value) == Color(-value)
  {
  }
}
