/** The per-pixel rules that read one source pixel: InvertFilter,
    BrightnessFilter and MoveFilter. */
module PointFilters {
  import opened Imaging

  /** InvertFilter: every channel c becomes 255 - c. */
  function InvertColor(c: Color): (n: Color)
    ensures forall ch :: Get(n, ch) + Get(c, ch) == 255
  {
    Color(255 - c.r, 255 - c.g, 255 - c.b)
  }

  /** Inverting twice gives back the original colour. */
  lemma InvertInvolution(c: Color)
    ensures InvertColor(InvertColor(c)) == c
  {
  }

  /** BrightnessFilter's constant. */
  const BrightnessStep := 50

  /** BrightnessFilter: every channel raised by 50 and clamped. */
  function Brighten(c: Color): (n: Color)
    ensures forall ch :: Get(n, ch) == if Get(c, ch) + BrightnessStep <= 255 then Get(c, ch) + BrightnessStep else 255
  {
    Color(Clamp(c.r + BrightnessStep, 0, 255), Clamp(c.g + BrightnessStep, 0, 255), Clamp(c.b + BrightnessStep, 0, 255))
  }

  /** Brightening never darkens a channel, and a channel at 205 or more
      saturates at white. */
  lemma BrightenNeverDarkens(c: Color, ch: Ch)
    ensures Get(Brighten(c), ch) >= Get(c, ch)
    ensures Get(Brighten(c), ch) == 255 <==> Get(c, ch) >= 255 - BrightnessStep
  {
  }

  /** MoveFilter's horizontal shift. */
  const Shift := 50

  /** MoveFilter: the pixel 50 columns to the right, black when that lies
      past the right edge. */
  function MoveColor(img: Image, x: int, y: int): (n: Color)
    requires img.Valid() && img.InBounds(x, y)
    ensures img.InBounds(x + Shift, y) ==> n == img.At(x + Shift, y)
    ensures x + Shift >= img.width ==> n == Black
  {
    if x + Shift < img.width then img.At(x + Shift, y) else Black
  }
}
