// The munch effect of src/core/effects/ambient-effects.ts: the classic
// "munching squares" xor pattern, whose counter sweeps back and forth
// across the panel, moving one column every second step.
module Munch {
  import opened Types
  import opened JsMath
  import opened Utils

  datatype MunchState = MunchState(counter: int, direction: int, time: int)

  /** init: counter 0, moving right, time 0. */
  const Initial := MunchState(0, 1, 0)

  /** The counter is a column of the panel and the direction a unit step. */
  predicate Ok(s: MunchState, width: nat)
  {
    0 <= s.counter < width && (s.direction == 1 || s.direction == -1) && s.time >= 0
  }

  /** The munch step: time advances by one; on even times the counter moves
      by the direction, and a counter past either end is put back on the end
      column with the direction reversed. */
  function Step(s: MunchState, width: nat): MunchState
  {
    var time := s.time + 1;
    if Rem(time, 2) != 0 then s.(time := time)
    else
      var c := s.counter + s.direction;
      if c >= width then MunchState(width - 1, -1, time)
      else if c < 0 then MunchState(0, 1, time)
      else MunchState(c, s.direction, time)
  }

  /** The counter stays on the panel: init starts on it and every step keeps it there. */
  lemma StepKeepsOk(s: MunchState, width: nat)
    requires width >= 1
    ensures Ok(Initial, width)
    ensures Ok(s, width) ==> Ok(Step(s, width), width)
  {
  }

  /** The counter moves only on even times, by one column in its direction
      when that column is on the panel; at either end it stays and turns. */
  lemma StepMoves(s: MunchState, width: nat)
    requires Ok(s, width)
    ensures var n := Step(s, width);
      n.time == s.time + 1 &&
      (n.time % 2 == 1 ==> n.counter == s.counter && n.direction == s.direction)
    ensures var n := Step(s, width);
      n.time % 2 == 0 && 0 <= s.counter + s.direction < width ==>
        n.counter == s.counter + s.direction && n.direction == s.direction
    ensures var n := Step(s, width);
      n.time % 2 == 0 && s.counter == width - 1 && s.direction == 1 ==>
        n.counter == width - 1 && n.direction == -1
    ensures var n := Step(s, width);
      n.time % 2 == 0 && s.counter == 0 && s.direction == -1 ==>
        n.counter == 0 && n.direction == 1
  {
  }

  /** The low four bits of a 32-bit integer, as `n & 0xF` reads them. */
  function Low4(n: int): bv4
  {
    (n % 16) as bv4
  }

  /** `(x ^ y ^ counter) & 0xF`: the xor of the three low nibbles. */
  function XorValue(x: int, y: int, counter: int): (v: nat)
    ensures v <= 15
  {
    (Low4(x) ^ Low4(y) ^ Low4(counter)) as nat
  }

  /** The colour of xor value `level` at `time`: brightness is the value
      over 15, the hue drifts slowly with time and shifts with brightness. */
  function Shade(time: int, level: nat): Rgb
  {
    var hueBase := Frac(time as real * 0.005);
    var brightness := level as real / 15.0;
    HsvToRgb(Frac(hueBase + brightness * 0.3), 0.8, brightness * 0.8)
  }

  /** _renderMunch's colour for cell (x, y). */
  function Cell(s: MunchState, x: int, y: int): Rgb
  {
    Shade(s.time, XorValue(x, y, s.counter))
  }

  /** The pattern is symmetric in x and y. */
  lemma CellSymmetric(s: MunchState, x: int, y: int)
    ensures Cell(s, x, y) == Cell(s, y, x)
  {
    assert XorValue(x, y, s.counter) == XorValue(y, x, s.counter);
  }

  /** The xor value is 0, the darkest level, exactly where the nibbles of x
      and y xor to the counter's; value 0 is black by Utils.HsvBlack. */
  lemma XorZero(x: int, y: int, counter: int)
    ensures XorValue(x, y, counter) == 0 <==> Low4(x) ^ Low4(y) == Low4(counter)
  {
    XorCancels(Low4(x), Low4(y), Low4(counter));
  }

  lemma XorCancels(a: bv4, b: bv4, c: bv4)
    ensures a ^ b ^ c == 0 <==> a ^ b == c
  {
  }

  /** Every shade of the pattern is a byte colour. */
  lemma ShadeInRange(time: int, level: nat)
    requires time >= 0 && level <= 15
    ensures Shade(time, level).InByteRange()
  {
    var brightness := level as real / 15.0;
    HsvInRange(Frac(Frac(time as real * 0.005) + brightness * 0.3), 0.8, brightness * 0.8);
  }
}
