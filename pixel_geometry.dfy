// The LED block geometry the two canvas backends share: every LED owns a
// scale-by-scale block of the canvas, of which a pixelSize-by-pixelSize
// rounded square is lit and the rest, at least one pixel wide, is gap
// (canvas-renderer.ts flush and imagedata-renderer.ts _createPixelTemplate).
module PixelGeometry {
  import opened JsMath

  /** `Math.max(1, Math.floor(scale * pixelGap))`: never less than one pixel. */
  function Gap(scale: nat, pixelGap: real): (g: int)
    ensures g >= 1
  {
    Max(1, Floor(scale as real * pixelGap))
  }

  /** The side of the lit square. */
  function PixelSize(scale: nat, pixelGap: real): (s: int)
    ensures s < scale
  {
    scale - Gap(scale, pixelGap)
  }

  /** `Math.max(1, Math.floor(scale * 0.15))`. */
  function CornerRadius(scale: nat): (r: int)
    ensures r == 1 || (1 < r && r as real <= scale as real * 0.15)
  {
    Max(1, Floor(scale as real * 0.15))
  }

  /** With the defaults (scale 8, gap 0.15) each LED is a 7-pixel square
      with a one-pixel gap and one-pixel corners. */
  lemma DefaultGeometry()
    ensures Gap(8, 0.15) == 1 && PixelSize(8, 0.15) == 7 && CornerRadius(8) == 1
  {
    assert Floor(8.0 * 0.15) == 1;
  }

  /** The lit square of LED column x stops before the block of column x + 1
      starts, so neighbouring LEDs never touch. */
  lemma BlocksSeparate(scale: nat, pixelGap: real, x1: int, x2: int)
    requires x1 < x2
    ensures x1 * scale + PixelSize(scale, pixelGap) < x2 * scale
  {
    assert x2 * scale - x1 * scale == (x2 - x1) * scale;
    assert (x2 - x1) * scale >= scale by {
      assert (x2 - x1) * scale == scale + (x2 - x1 - 1) * scale;
      assert (x2 - x1 - 1) * scale >= 0;
    }
  }
}
