// JavaScript number semantics the core relies on, written out over exact
// integers and reals: the truncating remainder operator, Math.floor,
// Math.ceil, Math.round, Math.min/max, and the clamping of a
// Uint8ClampedArray store.
module JsMath {

  /** Math.PI as the double it is. */
  const PI: real := 3.141592653589793

  /** `a % n` on integers in JavaScript: the result takes the sign of `a`. */
  function Rem(a: int, n: int): (r: int)
    requires n > 0
    ensures a >= 0 ==> r == a % n
    ensures a < 0 ==> -n < r <= 0
  {
    if a >= 0 then a % n else -((-a) % n)
  }

  /** Math.floor. */
  function Floor(x: real): (r: int)
    ensures r as real <= x < r as real + 1.0
  {
    x.Floor
  }

  /** Math.ceil. */
  function Ceil(x: real): (r: int)
    ensures r as real - 1.0 < x <= r as real
  {
    if x == x.Floor as real then x.Floor else x.Floor + 1
  }

  /** Math.round: the nearest integer, halves rounded up. */
  function Round(x: real): (r: int)
    ensures x - 0.5 < r as real <= x + 0.5
  {
    (x + 0.5).Floor
  }

  /** `x % 1` on numbers in JavaScript: the fractional part, with the sign of `x`. */
  function Frac(x: real): (r: real)
    ensures 0.0 <= x ==> 0.0 <= r < 1.0
    ensures x < 0.0 ==> -1.0 < r <= 0.0
  {
    if x >= 0.0 then x - x.Floor as real else x + (-x).Floor as real
  }

  function MinR(a: real, b: real): real { if a <= b then a else b }
  function MaxR(a: real, b: real): real { if a >= b then a else b }
  function AbsR(a: real): real { if a < 0.0 then -a else a }
  function Min(a: int, b: int): int { if a <= b then a else b }
  function Max(a: int, b: int): int { if a >= b then a else b }

  /** The value a Uint8ClampedArray stores for an integer: clamped to [0, 255]. */
  function ClampByte(v: int): (r: int)
    ensures 0 <= r <= 255
    ensures 0 <= v <= 255 ==> r == v
  {
    if v < 0 then 0 else if v > 255 then 255 else v
  }

  /** `Math.floor(Math.random() * n)` is an index below `n`. */
  lemma FloorDraw(d: real, n: nat)
    requires 0.0 <= d < 1.0 && n >= 1
    ensures 0 <= Floor(d * n as real) < n
  {
    assert 0.0 <= d * n as real < n as real;
  }
}
