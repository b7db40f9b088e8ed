/** Pixels, bitmaps, the integer clamp and the edge-replicating sampler that
    every neighbourhood filter reads through. */
module Imaging {

  datatype Option<T> = None | Some(value: T)

  /** One 8-bit colour channel. Color.FromArgb throws on anything outside
      0..255, so every colour the model builds has to prove its range. */
  type Channel = c: int | 0 <= c <= 255

  datatype Color = Color(r: Channel, g: Channel, b: Channel)

  /** The three channels, for rules that treat each one the same way. */
  datatype Ch = Red | Green | Blue

  function Get(c: Color, ch: Ch): Channel
  {
    match ch
    case Red => c.r
    case Green => c.g
    case Blue => c.b
  }

  const Black := Color(0, 0, 0)

  /** A bitmap of `width` columns of `height` pixels, indexed pixels[x][y].
      System.Drawing refuses to create a bitmap with a zero dimension. */
  datatype Image = Image(width: nat, height: nat, pixels: seq<seq<Color>>)
  {
    predicate Valid()
    {
      width >= 1 && height >= 1 && |pixels| == width &&
      forall x :: 0 <= x < width ==> |pixels[x]| == height
    }

    predicate InBounds(x: int, y: int)
    {
      0 <= x < width && 0 <= y < height
    }

    /** GetPixel(x, y). */
    function At(x: int, y: int): Color
      requires Valid() && InBounds(x, y)
    {
      pixels[x][y]
    }

    /** Every pixel is `c`. */
    predicate IsConstant(c: Color)
      requires Valid()
    {
      forall x, y :: 0 <= x < width && 0 <= y < height ==> At(x, y) == c
    }
  }

  /** A bitmap of the given size filled with one colour. */
  function Filled(width: nat, height: nat, c: Color): (img: Image)
    requires width >= 1 && height >= 1
    ensures img.Valid() && img.width == width && img.height == height
    ensures img.IsConstant(c)
  {
    Image(width, height, seq(width, _ => seq(height, _ => c)))
  }

  /** The one normalisation point of the filters: pull `value` into [min, max]. */
  function Clamp(value: int, min: int, max: int): (r: int)
    ensures min <= max ==> min <= r <= max
    ensures min <= value <= max ==> r == value
    ensures r == value || r == min || r == max
  {
    if value < min then min
    else if value > max then max
    else value
  }

  /** Clamping is monotone: a larger input never gives a smaller result. */
  lemma ClampMonotone(a: int, b: int, min: int, max: int)
    requires a <= b && min <= max
    ensures Clamp(a, min, max) <= Clamp(b, min, max)
  {
  }

  /** Clamp keeps the input when it is already in range and saturates otherwise,
      so clamping twice is the same as clamping once. */
  lemma ClampIdempotent(v: int, min: int, max: int)
    requires min <= max
    ensures Clamp(Clamp(v, min, max), min, max) == Clamp(v, min, max)
  {
  }

  /** The neighbour at (x, y) with both coordinates clamped into the bitmap:
      the edge-replication boundary policy of every neighbourhood filter. */
  function Sample(img: Image, x: int, y: int): (c: Color)
    requires img.Valid()
    ensures img.InBounds(x, y) ==> c == img.At(x, y)
  {
    img.At(Clamp(x, 0, img.width - 1), Clamp(y, 0, img.height - 1))
  }

  /** Outside the bitmap the sampler repeats the nearest edge pixel. */
  lemma EdgeReplication(img: Image, x: int, y: int)
    requires img.Valid()
    ensures x < 0 ==> Sample(img, x, y) == Sample(img, 0, y)
    ensures x >= img.width ==> Sample(img, x, y) == Sample(img, img.width - 1, y)
    ensures y < 0 ==> Sample(img, x, y) == Sample(img, x, 0)
    ensures y >= img.height ==> Sample(img, x, y) == Sample(img, x, img.height - 1)
  {
  }

  /** On a one-colour bitmap every sample, in or out of range, is that colour. */
  lemma SampleConstant(img: Image, c: Color, x: int, y: int)
    requires img.Valid() && img.IsConstant(c)
    ensures Sample(img, x, y) == c
  {
    assert img.InBounds(Clamp(x, 0, img.width - 1), Clamp(y, 0, img.height - 1));
  }

  /** Two bitmaps of one size that agree on every pixel are the same bitmap. */
  lemma SameImage(a: Image, b: Image)
    requires a.Valid() && b.Valid() && a.width == b.width && a.height == b.height
    requires forall x, y :: 0 <= x < a.width && 0 <= y < a.height ==> a.At(x, y) == b.At(x, y)
    ensures a == b
  {
    forall x | 0 <= x < a.width
      ensures a.pixels[x] == b.pixels[x]
    {
      assert forall y :: 0 <= y < a.height ==> a.pixels[x][y] == a.At(x, y) == b.At(x, y) == b.pixels[x][y];
    }
  }
}
