// The matrix effect of src/core/effects/ambient-effects.ts: a stack of
// colour rows that moves down one row per step, the new top row being the
// old top row faded, with random columns reseeded in the chosen colour mode.
module Matrix {
  import opened Types
  import opened JsMath

  /** The three colour modes `init` chooses from: green, cyan, magenta. */
  const ColorModes: seq<Rgb> := [Rgb(0.0, 255.0, 0.0), Rgb(0.0, 255.0, 255.0), Rgb(255.0, 0.0, 255.0)]

  /** How much of its brightness the top row loses on each step. */
  const FadeAmount: real := 0.15

  /** The chance that a column of the top row is reseeded on a step. */
  const SeedChance: real := 0.08

  /** The buffer's shape: `height` rows of `width` colours each. */
  predicate Shaped(rows: seq<seq<Rgb>>, width: nat, height: nat)
  {
    |rows| == height && forall y :: 0 <= y < |rows| ==> |rows[y]| == width
  }

  /** Every colour in the buffer is a byte colour. */
  predicate AllInByteRange(rows: seq<seq<Rgb>>)
  {
    forall y, x :: 0 <= y < |rows| && 0 <= x < |rows[y]| ==> rows[y][x].InByteRange()
  }

  /** init: one draw picks the colour mode, then `height` black rows of
      `width` cells are pushed. */
  method Init(width: nat, height: nat, host: Host) returns (colorMode: Rgb, rows: seq<seq<Rgb>>)
    requires host.Valid()
    ensures 0 <= Floor(host.Draw(0) * 3.0) < 3 && colorMode == ColorModes[Floor(host.Draw(0) * 3.0)]
    ensures Shaped(rows, width, height)
    ensures forall y, x :: 0 <= y < height && 0 <= x < width ==> rows[y][x] == Black
  {
    FloorDraw(host.Draw(0), 3);
    colorMode := ColorModes[Floor(host.Draw(0) * 3.0)];
    var blank := seq(width, _ => Black);
    rows := [];
    var y := 0;
    while y < height
      invariant 0 <= y <= height && |rows| == y
      invariant forall i :: 0 <= i < y ==> rows[i] == blank
    {
      rows := rows + [blank];
      y := y + 1;
    }
  }

  /** The top row faded: every channel multiplied by 1 - 0.15. */
  function Faded(row: seq<Rgb>): (r: seq<Rgb>)
    ensures |r| == |row|
  {
    seq(|row|, i requires 0 <= i < |row| => row[i].Scale(1.0 - FadeAmount))
  }

  /** A reseeded channel, `floor(random * mode)`: a whole number from 0 up to
      but excluding the mode's channel, or 0 where the mode's channel is 0. */
  predicate SeedChannel(v: real, mode: real)
  {
    v == v.Floor as real && 0.0 <= v && (v < mode || v == 0.0)
  }

  /** A colour a reseed can produce under `mode`. */
  predicate Seeded(c: Rgb, mode: Rgb)
  {
    SeedChannel(c.r, mode.r) && SeedChannel(c.g, mode.g) && SeedChannel(c.b, mode.b)
  }

  /** One reseeded channel, `Math.floor(Math.random() * m)`. */
  function SeedValue(d: real, m: real): real
  {
    Floor(d * m) as real
  }

  /** A draw in [0, 1) and a non-negative mode channel give a seed channel. */
  lemma SeedInMode(d: real, m: real)
    requires 0.0 <= d < 1.0 && 0.0 <= m
    ensures SeedChannel(SeedValue(d, m), m)
  {
    ScaledDraw(d, m);
  }

  /** A draw in [0, 1) scales a non-negative bound into [0, bound), or to 0. */
  lemma ScaledDraw(d: real, m: real)
    requires 0.0 <= d < 1.0 && 0.0 <= m
    ensures 0.0 <= d * m && (d * m < m || d * m == 0.0)
  {
    if m > 0.0 {
      assert (1.0 - d) * m > 0.0;
    }
  }

  /** The colour three draws give under `mode`. */
  function SeedColor(d1: real, d2: real, d3: real, mode: Rgb): Rgb
  {
    Rgb(SeedValue(d1, mode.r), SeedValue(d2, mode.g), SeedValue(d3, mode.b))
  }

  lemma SeedColorSeeded(d1: real, d2: real, d3: real, mode: Rgb)
    requires 0.0 <= d1 < 1.0 && 0.0 <= d2 < 1.0 && 0.0 <= d3 < 1.0
    requires 0.0 <= mode.r && 0.0 <= mode.g && 0.0 <= mode.b
    ensures Seeded(SeedColor(d1, d2, d3, mode), mode)
  {
    SeedInMode(d1, mode.r);
    SeedInMode(d2, mode.g);
    SeedInMode(d3, mode.b);
  }

  /** The draw at which column x of the reseeding loop decides: each column
      before it took one draw, and four if it was reseeded. */
  function SeedStart(host: Host, x: nat): nat
    requires host.Valid()
  {
    if x == 0 then 0
    else
      var k := SeedStart(host, x - 1);
      k + (if host.Draw(k) < SeedChance then 4 else 1)
  }

  /** Column `c` after the loop's pass with draws from `k` on: reseeded
      from the next three draws when draw `k` falls below the chance. */
  function ReseededCell(c: Rgb, mode: Rgb, host: Host, k: nat): Rgb
    requires host.Valid()
  {
    if host.Draw(k) < SeedChance then SeedColor(host.Draw(k + 1), host.Draw(k + 2), host.Draw(k + 3), mode) else c
  }

  /** A column is kept or reseeded under the mode. */
  lemma ReseededCellSeeded(c: Rgb, mode: Rgb, host: Host, k: nat)
    requires host.Valid() && 0.0 <= mode.r && 0.0 <= mode.g && 0.0 <= mode.b
    ensures ReseededCell(c, mode, host, k) == c || Seeded(ReseededCell(c, mode, host, k), mode)
  {
    if host.Draw(k) < SeedChance {
      SeedColorSeeded(host.Draw(k + 1), host.Draw(k + 2), host.Draw(k + 3), mode);
    }
  }

  /** `next` is `row` with its first x columns through the loop. */
  ghost predicate ReseedPrefix(row: seq<Rgb>, next: seq<Rgb>, mode: Rgb, host: Host, x: nat)
    requires host.Valid()
  {
    |next| == |row| && x <= |row| &&
    (forall i :: 0 <= i < x ==> next[i] == ReseededCell(row[i], mode, host, SeedStart(host, i))) &&
    (forall i :: x <= i < |row| ==> next[i] == row[i])
  }

  /** One more pass of the reseeding loop over column x. */
  lemma ReseedPrefixNext(row: seq<Rgb>, next: seq<Rgb>, mode: Rgb, host: Host, x: nat)
    requires host.Valid() && ReseedPrefix(row, next, mode, host, x) && x < |row|
    ensures ReseedPrefix(row, next[x := ReseededCell(row[x], mode, host, SeedStart(host, x))], mode, host, x + 1)
    ensures var k := SeedStart(host, x); SeedStart(host, x + 1) == k + (if host.Draw(k) < SeedChance then 4 else 1)
  {
  }

  /** The reseeding loop of _stepMatrix: for each column one draw decides,
      and a reseeded column takes three more draws, one per channel. */
  method Reseed(row: seq<Rgb>, mode: Rgb, width: nat, host: Host) returns (next: seq<Rgb>)
    requires host.Valid() && |row| == width
    requires 0.0 <= mode.r && 0.0 <= mode.g && 0.0 <= mode.b
    ensures |next| == width
    ensures forall x :: 0 <= x < width ==> next[x] == ReseededCell(row[x], mode, host, SeedStart(host, x))
    ensures forall x :: 0 <= x < width ==> next[x] == row[x] || Seeded(next[x], mode)
  {
    next := row;
    var k := 0;
    var x := 0;
    while x < width
      invariant 0 <= x <= width && k == SeedStart(host, x)
      invariant ReseedPrefix(row, next, mode, host, x)
    {
      ReseedPrefixNext(row, next, mode, host, x);
      if host.Draw(k) < SeedChance {
        next := next[x := SeedColor(host.Draw(k + 1), host.Draw(k + 2), host.Draw(k + 3), mode)];
        k := k + 4;
      } else {
        assert next[x := ReseededCell(row[x], mode, host, k)] == next;
        k := k + 1;
      }
      x := x + 1;
    }
    ReseedKeepsMode(row, next, mode, host);
  }

  /** Every column of a reseeded row is kept or reseeded under the mode. */
  lemma ReseedKeepsMode(row: seq<Rgb>, next: seq<Rgb>, mode: Rgb, host: Host)
    requires host.Valid() && |next| == |row| && 0.0 <= mode.r && 0.0 <= mode.g && 0.0 <= mode.b
    requires forall x :: 0 <= x < |row| ==> next[x] == ReseededCell(row[x], mode, host, SeedStart(host, x))
    ensures forall x :: 0 <= x < |row| ==> next[x] == row[x] || Seeded(next[x], mode)
  {
    forall x | 0 <= x < |row|
      ensures next[x] == row[x] || Seeded(next[x], mode)
    {
      ReseededCellSeeded(row[x], mode, host, SeedStart(host, x));
    }
  }

  /** Fading a byte-colour row keeps it in byte range. */
  lemma FadedInRange(row: seq<Rgb>)
    requires forall x :: 0 <= x < |row| ==> row[x].InByteRange()
    ensures forall x :: 0 <= x < |row| ==> Faded(row)[x].InByteRange()
  {
    forall x | 0 <= x < |row|
      ensures Faded(row)[x].InByteRange()
    {
      ScaleDims(row[x], 1.0 - FadeAmount);
    }
  }

  /** A reseeded colour under a byte-range mode is a byte colour. */
  lemma SeededInRange(c: Rgb, mode: Rgb)
    requires Seeded(c, mode) && mode.InByteRange()
    ensures c.InByteRange()
  {
  }

  /** _stepMatrix: the bottom row is dropped, a faded copy of the top row is
      put on top, and columns of the new top row are reseeded. With fewer
      than two rows the source has no top row left to copy after dropping
      one and throws; the model then leaves the buffer as it is. */
  method Step(rows: seq<seq<Rgb>>, mode: Rgb, width: nat, height: nat, host: Host) returns (next: seq<seq<Rgb>>)
    requires host.Valid() && Shaped(rows, width, height) && mode.InByteRange()
    ensures Shaped(next, width, height)
    ensures height < 2 ==> next == rows
    ensures height >= 2 ==> forall y :: 1 <= y < height ==> next[y] == rows[y - 1]
    ensures height >= 2 ==> forall x :: 0 <= x < width ==>
      next[0][x] == ReseededCell(rows[0][x].Scale(1.0 - FadeAmount), mode, host, SeedStart(host, x))
    ensures height >= 2 ==> forall x :: 0 <= x < width ==>
      next[0][x] == rows[0][x].Scale(1.0 - FadeAmount) || Seeded(next[0][x], mode)
    ensures AllInByteRange(rows) ==> AllInByteRange(next)
  {
    if height < 2 {
      return rows;
    }
    var top := Reseed(Faded(rows[0]), mode, width, host);
    next := [top] + rows[..height - 1];
    if AllInByteRange(rows) {
      FadedInRange(rows[0]);
      forall y, x | 0 <= y < |next| && 0 <= x < |next[y]|
        ensures next[y][x].InByteRange()
      {
        if y == 0 && !(next[0][x] == Faded(rows[0])[x]) {
          SeededInRange(next[0][x], mode);
        }
      }
    }
  }

  /** _renderMatrix's colour for cell (x, y): the buffer's colour, or black
      where the buffer has no such cell. */
  function Cell(rows: seq<seq<Rgb>>, x: int, y: int): Rgb
  {
    if 0 <= y < |rows| && 0 <= x < |rows[y]| then rows[y][x] else Black
  }

  /** A row shown at step n moves down one row per step: after a step, row
      y + 1 shows what row y showed before. */
  lemma StepMovesDown(rows: seq<seq<Rgb>>, next: seq<seq<Rgb>>, width: nat, height: nat, x: int, y: int)
    requires Shaped(rows, width, height) && Shaped(next, width, height) && height >= 2
    requires forall j :: 1 <= j < height ==> next[j] == rows[j - 1]
    requires 0 <= y < height - 1
    ensures Cell(next, x, y + 1) == Cell(rows, x, y)
  {
  }
}
