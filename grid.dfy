// Row-major indexing of a width x height grid, `y * width + x`, as every
// buffer of the core lays its cells out.
module Grid {

  /** A cell in range has an index in range, and the index gives the cell back. */
  lemma CellIndex(w: nat, h: nat, x: int, y: int)
    requires 0 <= x < w && 0 <= y < h
    ensures 0 <= y * w + x < w * h
    ensures (y * w + x) / w == y && (y * w + x) % w == x
  {
    MulMono(y + 1, h, w);
    assert (y + 1) * w == y * w + w;
    DivModUnique(y * w + x, w, y, x);
  }

  /** Euclidean division is determined by the quotient-remainder decomposition. */
  lemma DivModUnique(j: int, w: nat, q: int, r: int)
    requires w > 0 && 0 <= r < w && j == q * w + r
    ensures j / w == q && j % w == r
  {
    var q', r' := j / w, j % w;
    assert j == q' * w + r' && 0 <= r' < w;
    assert (q - q') * w == r' - r;
    if q > q' {
      MulMono(1, q - q', w);
    } else if q < q' {
      MulMono(1, q' - q, w);
    }
  }

  lemma MulMono(a: int, b: int, w: nat)
    requires a <= b
    ensures a * w <= b * w
  {
    assert b * w - a * w == (b - a) * w;
  }

  /** Every index of a non-empty-width grid names the cell (j % w, j / w). */
  lemma IndexCell(w: nat, h: nat, j: int)
    requires 0 <= j < w * h
    ensures w > 0 && 0 <= j % w < w && 0 <= j / w < h && (j / w) * w + j % w == j
  {
    if j / w >= h {
      MulMono(h, j / w, w);
    }
  }

  /** Distinct cells have distinct indices. */
  lemma IndexInjective(w: nat, h: nat, x1: int, y1: int, x2: int, y2: int)
    requires 0 <= x1 < w && 0 <= y1 < h && 0 <= x2 < w && 0 <= y2 < h
    requires x1 != x2 || y1 != y2
    ensures y1 * w + x1 != y2 * w + x2
  {
    CellIndex(w, h, x1, y1);
    CellIndex(w, h, x2, y2);
  }

  /** When row y + 1 exists, rows y and y + 1 both fit in the grid. */
  lemma RowsFit(y: int, h: int, w: nat)
    requires 0 <= y && y + 2 <= h
    ensures y * w + 2 * w <= h * w
  {
    MulMono(y + 2, h, w);
  }

  lemma NextRow(y: int, w: int)
    ensures (y + 1) * w == y * w + w
  {
  }

  lemma DivMod(j: int, d: int)
    requires j >= 0 && d > 0
    ensures 0 <= j / d && 0 <= j % d < d && j == (j / d) * d + j % d
  {
  }

  lemma MulPos(a: int, b: int)
    requires a > 0 && b > 0
    ensures a * b > 0
  {
  }
}
