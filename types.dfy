// Shared value types of the display core (src/core/types.ts): colours, effect
// options, and the host environment the engine draws randomness and
// trigonometry from.
module Types {

  datatype Option<T> = None | Some(value: T)
  {
    function GetOr(default: T): T
    {
      match this
      case None => default
      case Some(v) => v
    }
  }

  /** An RGB triple. Channels are exact reals: effects scale colours by
      fractional factors and the backends round only when they paint. */
  datatype Rgb = Rgb(r: real, g: real, b: real)
  {
    function Scale(k: real): Rgb { Rgb(r * k, g * k, b * k) }
    predicate InByteRange() { 0.0 <= r <= 255.0 && 0.0 <= g <= 255.0 && 0.0 <= b <= 255.0 }
  }

  const Black := Rgb(0.0, 0.0, 0.0)

  /** Scaling a byte-range colour by a factor in [0, 1] stays in range and
      raises no channel. */
  lemma ScaleDims(c: Rgb, k: real)
    requires c.InByteRange() && 0.0 <= k <= 1.0
    ensures var s := c.Scale(k); s.InByteRange() && s.r <= c.r && s.g <= c.g && s.b <= c.b
  {
    match c {
      case Rgb(r, g, b) => ScaleChannels(r, g, b, k);
    }
  }

  lemma ScaleChannels(r: real, g: real, b: real, k: real)
    requires 0.0 <= r && 0.0 <= g && 0.0 <= b && 0.0 <= k <= 1.0
    ensures var s := Rgb(r, g, b).Scale(k); 0.0 <= s.r <= r && 0.0 <= s.g <= g && 0.0 <= s.b <= b
  {
    assert r * (1.0 - k) >= 0.0;
    assert g * (1.0 - k) >= 0.0;
    assert b * (1.0 - k) >= 0.0;
  }

  /** A non-negative value scaled by a factor in [0, 1] lies between 0 and itself. */
  lemma ScaleReal(v: real, k: real)
    requires 0.0 <= v && 0.0 <= k <= 1.0
    ensures 0.0 <= v * k <= v
  {
    assert v * (1.0 - k) >= 0.0;
  }

  /** The options record that `initEffect` spreads into a fresh effect state.
      Only the keys the core reads are modelled: `speed` and `fgColor`. */
  datatype Options = Options(speed: Option<real>, fgColor: Option<string>)

  const NoOptions := Options(None, None)

  /** What the engine takes from its host instead of calling the browser:
      the successive results of `Math.random()` (each in [0, 1)), `Math.sin`,
      `Math.cos`, and the closed-form colour fields of the purely
      trigonometric ambient effects, as a function of effect name, time and
      cell. */
  datatype Host = Host(
    rand: seq<real>,
    sin: real -> real,
    cos: real -> real,
    field: (string, real, int, int) -> Rgb)
  {
    /** Every supplied draw lies in [0, 1), as `Math.random()` promises, and
        `sin` and `cos` stay within [-1, 1]. */
    ghost predicate Valid()
    {
      (forall i :: 0 <= i < |rand| ==> 0.0 <= rand[i] < 1.0) &&
      (forall t :: -1.0 <= sin(t) <= 1.0) && (forall t :: -1.0 <= cos(t) <= 1.0)
    }

    /** The `i`-th draw; the model reads 0.0 past the end of the supplied draws. */
    function Draw(i: nat): (d: real)
      requires Valid()
      ensures 0.0 <= d < 1.0
      ensures i < |rand| ==> d == rand[i]
    {
      if i < |rand| then rand[i] else 0.0
    }
  }
}
