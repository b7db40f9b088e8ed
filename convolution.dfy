/** The kernel filters: MatrixFilter (one kernel, a clamped weighted sum per
    channel) and TwoKernelFilter (two kernels, the clamped gradient magnitude
    per channel), with the integer-weight kernels of the source. */
module Convolution {
  import opened Imaging

  /** A kernel as the source's 2-D weight array: kernel[i][j], where i runs
      along x (GetLength(0)) and j along y (GetLength(1)). */
  type Kernel = seq<seq<int>>

  /** A rectangular, non-empty weight array. */
  predicate IsKernel(k: Kernel)
  {
    |k| >= 1 && |k[0]| >= 1 && forall i :: 0 <= i < |k| ==> |k[i]| == |k[0]|
  }

  /** Both dimensions odd, so that the window of radius size / 2 is the kernel. */
  predicate IsOddKernel(k: Kernel)
  {
    IsKernel(k) && |k| % 2 == 1 && |k[0]| % 2 == 1
  }

  /** The contribution of kernel cell (i, j): the neighbour at offsets
      (i - |k| / 2, j - |k[0]| / 2) from (x, y), weighted by k[i][j]. */
  function Term(img: Image, k: Kernel, x: int, y: int, ch: Ch, i: int, j: int): int
    requires img.Valid() && IsKernel(k) && 0 <= i < |k| && 0 <= j < |k[0]|
  {
    Get(Sample(img, x + i - |k| / 2, y + j - |k[0]| / 2), ch) * k[i][j]
  }

  // The weighted sum over the kernel, accumulated in the two orders the
  // source's loops use: row by row (MatrixFilter: y outer, x inner) and
  // column by column (TwoKernelFilter: x outer, y inner).

  /** Terms (i, j) for i < hi, at a fixed j. */
  function RowSum(img: Image, k: Kernel, x: int, y: int, ch: Ch, j: int, hi: int): int
    requires img.Valid() && IsKernel(k) && 0 <= j < |k[0]| && 0 <= hi <= |k|
  {
    if hi == 0 then 0 else RowSum(img, k, x, y, ch, j, hi - 1) + Term(img, k, x, y, ch, hi - 1, j)
  }

  /** Terms (i, j) for j < hj and i < hi, accumulated row by row. */
  function RowsSum(img: Image, k: Kernel, x: int, y: int, ch: Ch, hj: int, hi: int): int
    requires img.Valid() && IsKernel(k) && 0 <= hj <= |k[0]| && 0 <= hi <= |k|
  {
    if hj == 0 then 0 else RowsSum(img, k, x, y, ch, hj - 1, hi) + RowSum(img, k, x, y, ch, hj - 1, hi)
  }

  /** Terms (i, j) for j < hj, at a fixed i. */
  function ColSum(img: Image, k: Kernel, x: int, y: int, ch: Ch, i: int, hj: int): int
    requires img.Valid() && IsKernel(k) && 0 <= i < |k| && 0 <= hj <= |k[0]|
  {
    if hj == 0 then 0 else ColSum(img, k, x, y, ch, i, hj - 1) + Term(img, k, x, y, ch, i, hj - 1)
  }

  /** Terms (i, j) for i < hi and j < hj, accumulated column by column. */
  function ColsSum(img: Image, k: Kernel, x: int, y: int, ch: Ch, hi: int, hj: int): int
    requires img.Valid() && IsKernel(k) && 0 <= hi <= |k| && 0 <= hj <= |k[0]|
  {
    if hi == 0 then 0 else ColsSum(img, k, x, y, ch, hi - 1, hj) + ColSum(img, k, x, y, ch, hi - 1, hj)
  }

  /** The weighted sum of one channel over the whole kernel. */
  function Convolve(img: Image, k: Kernel, x: int, y: int, ch: Ch): int
    requires img.Valid() && IsKernel(k)
  {
    RowsSum(img, k, x, y, ch, |k[0]|, |k|)
  }

  /** Adding the terms of one more column to the row-by-row sum. */
  lemma {:induction false} RowsSumAddColumn(img: Image, k: Kernel, x: int, y: int, ch: Ch, hj: int, hi: int)
    requires img.Valid() && IsKernel(k) && 0 <= hj <= |k[0]| && 0 < hi <= |k|
    ensures RowsSum(img, k, x, y, ch, hj, hi)
         == RowsSum(img, k, x, y, ch, hj, hi - 1) + ColSum(img, k, x, y, ch, hi - 1, hj)
  {
    if hj > 0 {
      RowsSumAddColumn(img, k, x, y, ch, hj - 1, hi);
    }
  }

  /** The order of summation does not matter: the column-by-column sum of
      TwoKernelFilter equals the row-by-row sum of MatrixFilter. */
  lemma {:induction false} SumOrderIrrelevant(img: Image, k: Kernel, x: int, y: int, ch: Ch, hi: int, hj: int)
    requires img.Valid() && IsKernel(k) && 0 <= hi <= |k| && 0 <= hj <= |k[0]|
    ensures ColsSum(img, k, x, y, ch, hi, hj) == RowsSum(img, k, x, y, ch, hj, hi)
  {
    if hi == 0 {
      RowsSumOfNothing(img, k, x, y, ch, hj);
    } else {
      SumOrderIrrelevant(img, k, x, y, ch, hi - 1, hj);
      RowsSumAddColumn(img, k, x, y, ch, hj, hi);
    }
  }

  lemma {:induction false} RowsSumOfNothing(img: Image, k: Kernel, x: int, y: int, ch: Ch, hj: int)
    requires img.Valid() && IsKernel(k) && 0 <= hj <= |k[0]|
    ensures RowsSum(img, k, x, y, ch, hj, 0) == 0
  {
    if hj > 0 {
      RowsSumOfNothing(img, k, x, y, ch, hj - 1);
    }
  }

  // ---------------------------------------------------------------- weights

  /** Weights k[i][j] for i < hi, at a fixed j. */
  function WeightRow(k: Kernel, j: int, hi: int): int
    requires IsKernel(k) && 0 <= j < |k[0]| && 0 <= hi <= |k|
  {
    if hi == 0 then 0 else WeightRow(k, j, hi - 1) + k[hi - 1][j]
  }

  /** Weights k[i][j] for j < hj, all i. */
  function WeightRows(k: Kernel, hj: int): int
    requires IsKernel(k) && 0 <= hj <= |k[0]|
  {
    if hj == 0 then 0 else WeightRows(k, hj - 1) + WeightRow(k, hj - 1, |k|)
  }

  /** The sum of all weights of the kernel. */
  function WeightSum(k: Kernel): int
    requires IsKernel(k)
  {
    WeightRows(k, |k[0]|)
  }

  /** On a one-colour bitmap the weighted sum is the colour's channel times
      the kernel's total weight. */
  lemma {:induction false} ConvolveConstantRow(img: Image, c: Color, k: Kernel, x: int, y: int, ch: Ch, j: int, hi: int)
    requires img.Valid() && img.IsConstant(c) && IsKernel(k) && 0 <= j < |k[0]| && 0 <= hi <= |k|
    ensures RowSum(img, k, x, y, ch, j, hi) == Get(c, ch) * WeightRow(k, j, hi)
  {
    if hi > 0 {
      ConvolveConstantRow(img, c, k, x, y, ch, j, hi - 1);
      SampleConstant(img, c, x + (hi - 1) - |k| / 2, y + j - |k[0]| / 2);
      Distribute(Get(c, ch), WeightRow(k, j, hi - 1), k[hi - 1][j]);
    }
  }

  lemma {:induction false} ConvolveConstantRows(img: Image, c: Color, k: Kernel, x: int, y: int, ch: Ch, hj: int)
    requires img.Valid() && img.IsConstant(c) && IsKernel(k) && 0 <= hj <= |k[0]|
    ensures RowsSum(img, k, x, y, ch, hj, |k|) == Get(c, ch) * WeightRows(k, hj)
  {
    if hj > 0 {
      ConvolveConstantRows(img, c, k, x, y, ch, hj - 1);
      ConvolveConstantRow(img, c, k, x, y, ch, hj - 1, |k|);
      Distribute(Get(c, ch), WeightRows(k, hj - 1), WeightRow(k, hj - 1, |k|));
    }
  }

  lemma Distribute(a: int, b: int, c: int)
    ensures a * (b + c) == a * b + a * c
  {
  }

  lemma ConvolveConstant(img: Image, c: Color, k: Kernel, x: int, y: int, ch: Ch)
    requires img.Valid() && img.IsConstant(c) && IsKernel(k)
    ensures Convolve(img, k, x, y, ch) == Get(c, ch) * WeightSum(k)
  {
    ConvolveConstantRows(img, c, k, x, y, ch, |k[0]|);
  }

  // ---------------------------------------------------------------- MatrixFilter

  /** MatrixFilter's colour: each channel's weighted sum clamped into 0..255. */
  function ConvolveColor(img: Image, k: Kernel, x: int, y: int): Color
    requires img.Valid() && IsKernel(k)
  {
    Color(Clamp(Convolve(img, k, x, y, Red), 0, 255),
          Clamp(Convolve(img, k, x, y, Green), 0, 255),
          Clamp(Convolve(img, k, x, y, Blue), 0, 255))
  }

  /** A kernel whose weights add up to 1 leaves a one-colour bitmap unchanged. */
  lemma ConvolveKeepsFlat(img: Image, c: Color, k: Kernel, x: int, y: int)
    requires img.Valid() && img.IsConstant(c) && IsKernel(k) && WeightSum(k) == 1
    ensures ConvolveColor(img, k, x, y) == c
  {
    ConvolveConstant(img, c, k, x, y, Red);
    ConvolveConstant(img, c, k, x, y, Green);
    ConvolveConstant(img, c, k, x, y, Blue);
  }

  /** The three accumulators hold the row-by-row sums up to (hj, hi) of
      each channel: full rows j < hj, then cells i < hi of row hj. */
  predicate RowSumsAre(img: Image, k: Kernel, x: int, y: int, hj: int, hi: int, sr: int, sg: int, sb: int)
    requires img.Valid() && IsKernel(k) && 0 <= hj < |k[0]| && 0 <= hi <= |k|
  {
    sr == RowsSum(img, k, x, y, Red, hj, |k|) + RowSum(img, k, x, y, Red, hj, hi) &&
    sg == RowsSum(img, k, x, y, Green, hj, |k|) + RowSum(img, k, x, y, Green, hj, hi) &&
    sb == RowsSum(img, k, x, y, Blue, hj, |k|) + RowSum(img, k, x, y, Blue, hj, hi)
  }

  /** The three accumulators hold the sums over the full rows j < hj. */
  predicate FullRowSumsAre(img: Image, k: Kernel, x: int, y: int, hj: int, sr: int, sg: int, sb: int)
    requires img.Valid() && IsKernel(k) && 0 <= hj <= |k[0]|
  {
    sr == RowsSum(img, k, x, y, Red, hj, |k|) &&
    sg == RowsSum(img, k, x, y, Green, hj, |k|) &&
    sb == RowsSum(img, k, x, y, Blue, hj, |k|)
  }

  lemma RowSumsStep(img: Image, k: Kernel, x: int, y: int, hj: int, hi: int, n: Color, w: int, sr: int, sg: int, sb: int)
    requires img.Valid() && IsKernel(k) && 0 <= hj < |k[0]| && 0 <= hi < |k|
    requires n == Sample(img, x + hi - |k| / 2, y + hj - |k[0]| / 2) && w == k[hi][hj]
    requires RowSumsAre(img, k, x, y, hj, hi, sr, sg, sb)
    ensures RowSumsAre(img, k, x, y, hj, hi + 1, sr + n.r * w, sg + n.g * w, sb + n.b * w)
  {
  }

  lemma RowSumsStart(img: Image, k: Kernel, x: int, y: int, hj: int, sr: int, sg: int, sb: int)
    requires img.Valid() && IsKernel(k) && 0 <= hj < |k[0]|
    requires FullRowSumsAre(img, k, x, y, hj, sr, sg, sb)
    ensures RowSumsAre(img, k, x, y, hj, 0, sr, sg, sb)
  {
  }

  lemma RowSumsEnd(img: Image, k: Kernel, x: int, y: int, hj: int, sr: int, sg: int, sb: int)
    requires img.Valid() && IsKernel(k) && 0 <= hj < |k[0]|
    requires RowSumsAre(img, k, x, y, hj, |k|, sr, sg, sb)
    ensures FullRowSumsAre(img, k, x, y, hj + 1, sr, sg, sb)
  {
  }

  /** MatrixFilter.CalculateNewColor with its loop bounds corrected so that
      they run over the kernel's own index range (see MatrixPixelAsWritten):
      offsets l from -radiusY while l + radiusY < GetLength(1), and k likewise.
      For odd kernels these are exactly the source's bounds. */
  method MatrixPixel(img: Image, kernel: Kernel, x: int, y: int) returns (c: Color)
    requires img.Valid() && IsKernel(kernel)
    ensures c == ConvolveColor(img, kernel, x, y)
  {
    var radiusX := |kernel| / 2;
    var radiusY := |kernel[0]| / 2;
    var resultR, resultG, resultB := 0, 0, 0;
    var l := -radiusY;
    ghost var j := 0;
    while l < |kernel[0]| - radiusY
      invariant -radiusY <= l <= |kernel[0]| - radiusY && j == l + radiusY
      invariant FullRowSumsAre(img, kernel, x, y, j, resultR, resultG, resultB)
    {
      RowSumsStart(img, kernel, x, y, j, resultR, resultG, resultB);
      var k := -radiusX;
      ghost var i := 0;
      while k < |kernel| - radiusX
        invariant -radiusX <= k <= |kernel| - radiusX && i == k + radiusX
        invariant RowSumsAre(img, kernel, x, y, j, i, resultR, resultG, resultB)
      {
        var idX := Clamp(x + k, 0, img.width - 1);
        var idY := Clamp(y + l, 0, img.height - 1);
        var neighborColor := img.At(idX, idY);
        var weight := kernel[k + radiusX][l + radiusY];
        RowSumsStep(img, kernel, x, y, j, i, neighborColor, weight, resultR, resultG, resultB);
        resultR := resultR + neighborColor.r * weight;
        resultG := resultG + neighborColor.g * weight;
        resultB := resultB + neighborColor.b * weight;
        k := k + 1;
        i := i + 1;
      }
      RowSumsEnd(img, kernel, x, y, j, resultR, resultG, resultB);
      l := l + 1;
      j := j + 1;
    }
    c := Color(Clamp(resultR, 0, 255), Clamp(resultG, 0, 255), Clamp(resultB, 0, 255));
  }

  /** MatrixFilter.CalculateNewColor exactly as written: the loops run the
      offsets from -radius to +radius, radius = GetLength / 2, and read
      Kernel[k + radiusX, l + radiusY]. When a dimension is even, the last
      offset reaches index 2 * radius == GetLength, and the read throws
      IndexOutOfRangeException (here: None). */
  method MatrixPixelAsWritten(img: Image, kernel: Kernel, x: int, y: int) returns (c: Option<Color>)
    requires img.Valid() && IsKernel(kernel)
    ensures c.None? <==> (|kernel| % 2 == 0 || |kernel[0]| % 2 == 0)
    ensures c.Some? ==> c.value == ConvolveColor(img, kernel, x, y)
  {
    var radiusX := |kernel| / 2;
    var radiusY := |kernel[0]| / 2;
    var resultR, resultG, resultB := 0, 0, 0;
    var l := -radiusY;
    ghost var j := 0;
    while l <= radiusY
      invariant -radiusY <= l <= radiusY + 1 && j == l + radiusY
      invariant j <= |kernel[0]|
      invariant j > 0 ==> |kernel| % 2 == 1
      invariant FullRowSumsAre(img, kernel, x, y, j, resultR, resultG, resultB)
    {
      var k := -radiusX;
      ghost var i := 0;
      while k <= radiusX
        invariant -radiusX <= k <= radiusX + 1 && i == k + radiusX
        invariant i <= |kernel|
        invariant i > 0 ==> j < |kernel[0]|
        invariant i == 0 ==> FullRowSumsAre(img, kernel, x, y, j, resultR, resultG, resultB)
        invariant i > 0 ==> RowSumsAre(img, kernel, x, y, j, i, resultR, resultG, resultB)
      {
        if k + radiusX >= |kernel| || l + radiusY >= |kernel[0]| {
          return None;
        }
        if k == -radiusX {
          RowSumsStart(img, kernel, x, y, j, resultR, resultG, resultB);
        }
        var idX := Clamp(x + k, 0, img.width - 1);
        var idY := Clamp(y + l, 0, img.height - 1);
        var neighborColor := img.At(idX, idY);
        var weight := kernel[k + radiusX][l + radiusY];
        RowSumsStep(img, kernel, x, y, j, i, neighborColor, weight, resultR, resultG, resultB);
        resultR := resultR + neighborColor.r * weight;
        resultG := resultG + neighborColor.g * weight;
        resultB := resultB + neighborColor.b * weight;
        k := k + 1;
        i := i + 1;
      }
      RowSumsEnd(img, kernel, x, y, j, resultR, resultG, resultB);
      l := l + 1;
      j := j + 1;
    }
    c := Some(Color(Clamp(resultR, 0, 255), Clamp(resultG, 0, 255), Clamp(resultB, 0, 255)));
  }

  // ---------------------------------------------------------------- TwoKernelFilter

  /** The integer square root: (int)Math.Sqrt(n) for the integer n the
      gradient filters pass it (see README). */
  function ISqrt(n: nat): (r: nat)
    ensures r * r <= n < (r + 1) * (r + 1)
  {
    if n < 4 then
      (if n == 0 then 0 else 1)
    else
      var h := ISqrt(n / 4);
      ISqrtDoubling(n, h);
      if (2 * h + 1) * (2 * h + 1) <= n then 2 * h + 1 else 2 * h
  }

  /** The root of n lies between twice the root of n / 4 and one more. */
  lemma ISqrtDoubling(n: nat, h: nat)
    requires h * h <= n / 4 < (h + 1) * (h + 1)
    ensures (2 * h) * (2 * h) <= n < (2 * h + 2) * (2 * h + 2)
  {
    var q := n / 4;
    assert 4 * q <= n < 4 * q + 4;
    assert (2 * h) * (2 * h) == 4 * (h * h);
    assert (2 * h + 2) * (2 * h + 2) == 4 * ((h + 1) * (h + 1));
  }

  /** There is only one r with r^2 <= n < (r+1)^2, so ISqrt is the floor of
      the square root, whatever way it is computed. */
  lemma ISqrtUnique(n: nat, r: nat)
    requires r * r <= n < (r + 1) * (r + 1)
    ensures r == ISqrt(n)
  {
    var s := ISqrt(n);
    if r < s {
      SquareMonotone(r + 1, s);
    } else if s < r {
      SquareMonotone(s + 1, r);
    }
  }

  lemma SquareMonotone(a: nat, b: nat)
    requires a <= b
    ensures a * a <= b * b
  {
    assert a * a <= a * b <= b * b;
  }

  /** One channel of a gradient filter: the clamped integer magnitude of the
      two kernels' sums. */
  function Magnitude(sx: int, sy: int): Channel
  {
    Clamp(ISqrt(sx * sx + sy * sy), 0, 255)
  }

  /** A kernel pair of one shape, as TwoKernelFilter needs: it indexes both
      kernels with the radii of the first. */
  predicate IsKernelPair(kx: Kernel, ky: Kernel)
  {
    IsOddKernel(kx) && IsKernel(ky) && |ky| == |kx| && |ky[0]| == |kx[0]|
  }

  /** TwoKernelFilter's colour. */
  function GradientColor(img: Image, kx: Kernel, ky: Kernel, x: int, y: int): Color
    requires img.Valid() && IsKernelPair(kx, ky)
  {
    Color(Magnitude(Convolve(img, kx, x, y, Red), Convolve(img, ky, x, y, Red)),
          Magnitude(Convolve(img, kx, x, y, Green), Convolve(img, ky, x, y, Green)),
          Magnitude(Convolve(img, kx, x, y, Blue), Convolve(img, ky, x, y, Blue)))
  }

  /** Two kernels that each weigh 0 in total give black on a one-colour
      bitmap: no edges, no gradient. */
  lemma GradientOfFlatIsBlack(img: Image, c: Color, kx: Kernel, ky: Kernel, x: int, y: int)
    requires img.Valid() && img.IsConstant(c) && IsKernelPair(kx, ky)
    requires WeightSum(kx) == 0 && WeightSum(ky) == 0
    ensures GradientColor(img, kx, ky, x, y) == Black
  {
    forall ch: Ch
      ensures Convolve(img, kx, x, y, ch) == 0 && Convolve(img, ky, x, y, ch) == 0
    {
      ConvolveConstant(img, c, kx, x, y, ch);
      ConvolveConstant(img, c, ky, x, y, ch);
    }
    assert ISqrt(0) == 0;
  }

  /** One kernel's three accumulators hold the column-by-column sums up to
      (hi, hj): full columns i < hi, then cells j < hj of column hi. */
  predicate ColSumsAre(img: Image, k: Kernel, x: int, y: int, hi: int, hj: int, sr: int, sg: int, sb: int)
    requires img.Valid() && IsKernel(k) && 0 <= hi < |k| && 0 <= hj <= |k[0]|
  {
    sr == ColsSum(img, k, x, y, Red, hi, |k[0]|) + ColSum(img, k, x, y, Red, hi, hj) &&
    sg == ColsSum(img, k, x, y, Green, hi, |k[0]|) + ColSum(img, k, x, y, Green, hi, hj) &&
    sb == ColsSum(img, k, x, y, Blue, hi, |k[0]|) + ColSum(img, k, x, y, Blue, hi, hj)
  }

  predicate FullColSumsAre(img: Image, k: Kernel, x: int, y: int, hi: int, sr: int, sg: int, sb: int)
    requires img.Valid() && IsKernel(k) && 0 <= hi <= |k|
  {
    sr == ColsSum(img, k, x, y, Red, hi, |k[0]|) &&
    sg == ColsSum(img, k, x, y, Green, hi, |k[0]|) &&
    sb == ColsSum(img, k, x, y, Blue, hi, |k[0]|)
  }

  lemma ColSumsStep(img: Image, k: Kernel, x: int, y: int, hi: int, hj: int, n: Color, w: int, sr: int, sg: int, sb: int)
    requires img.Valid() && IsKernel(k) && 0 <= hi < |k| && 0 <= hj < |k[0]|
    requires n == Sample(img, x + hi - |k| / 2, y + hj - |k[0]| / 2) && w == k[hi][hj]
    requires ColSumsAre(img, k, x, y, hi, hj, sr, sg, sb)
    ensures ColSumsAre(img, k, x, y, hi, hj + 1, sr + n.r * w, sg + n.g * w, sb + n.b * w)
  {
  }

  lemma ColSumsStart(img: Image, k: Kernel, x: int, y: int, hi: int, sr: int, sg: int, sb: int)
    requires img.Valid() && IsKernel(k) && 0 <= hi < |k|
    requires FullColSumsAre(img, k, x, y, hi, sr, sg, sb)
    ensures ColSumsAre(img, k, x, y, hi, 0, sr, sg, sb)
  {
  }

  lemma ColSumsEnd(img: Image, k: Kernel, x: int, y: int, hi: int, sr: int, sg: int, sb: int)
    requires img.Valid() && IsKernel(k) && 0 <= hi < |k|
    requires ColSumsAre(img, k, x, y, hi, |k[0]|, sr, sg, sb)
    ensures FullColSumsAre(img, k, x, y, hi + 1, sr, sg, sb)
  {
  }

  /** After the whole kernel the column-by-column sums are the convolutions. */
  lemma ColSumsDone(img: Image, k: Kernel, x: int, y: int, sr: int, sg: int, sb: int)
    requires img.Valid() && IsKernel(k)
    requires FullColSumsAre(img, k, x, y, |k|, sr, sg, sb)
    ensures sr == Convolve(img, k, x, y, Red)
    ensures sg == Convolve(img, k, x, y, Green)
    ensures sb == Convolve(img, k, x, y, Blue)
  {
    SumOrderIrrelevant(img, k, x, y, Red, |k|, |k[0]|);
    SumOrderIrrelevant(img, k, x, y, Green, |k|, |k[0]|);
    SumOrderIrrelevant(img, k, x, y, Blue, |k|, |k[0]|);
  }

  /** Both kernels' accumulators at (hi, hj). */
  predicate PairSumsAre(img: Image, kx: Kernel, ky: Kernel, x: int, y: int, hi: int, hj: int,
                        sumRx: int, sumGx: int, sumBx: int, sumRy: int, sumGy: int, sumBy: int)
    requires img.Valid() && IsKernelPair(kx, ky) && 0 <= hi < |kx| && 0 <= hj <= |kx[0]|
  {
    ColSumsAre(img, kx, x, y, hi, hj, sumRx, sumGx, sumBx) && ColSumsAre(img, ky, x, y, hi, hj, sumRy, sumGy, sumBy)
  }

  lemma PairSumsStep(img: Image, kx: Kernel, ky: Kernel, x: int, y: int, hi: int, hj: int, n: Color, wx: int, wy: int,
                     sumRx: int, sumGx: int, sumBx: int, sumRy: int, sumGy: int, sumBy: int)
    requires img.Valid() && IsKernelPair(kx, ky) && 0 <= hi < |kx| && 0 <= hj < |kx[0]|
    requires n == Sample(img, x + hi - |kx| / 2, y + hj - |kx[0]| / 2) && wx == kx[hi][hj] && wy == ky[hi][hj]
    requires PairSumsAre(img, kx, ky, x, y, hi, hj, sumRx, sumGx, sumBx, sumRy, sumGy, sumBy)
    ensures PairSumsAre(img, kx, ky, x, y, hi, hj + 1, sumRx + n.r * wx, sumGx + n.g * wx, sumBx + n.b * wx,
                        sumRy + n.r * wy, sumGy + n.g * wy, sumBy + n.b * wy)
  {
    ColSumsStep(img, kx, x, y, hi, hj, n, wx, sumRx, sumGx, sumBx);
    ColSumsStep(img, ky, x, y, hi, hj, n, wy, sumRy, sumGy, sumBy);
  }

  /** TwoKernelFilter.CalculateNewColor: one pass over the window (x offset
      outer, y offset inner) accumulating both kernels' sums per channel,
      then the clamped integer magnitude. */
  method GradientPixel(img: Image, kernelX: Kernel, kernelY: Kernel, x: int, y: int) returns (c: Color)
    requires img.Valid() && IsKernelPair(kernelX, kernelY)
    ensures c == GradientColor(img, kernelX, kernelY, x, y)
  {
    var width := img.width;
    var height := img.height;
    var radiusX := |kernelX| / 2;
    var radiusY := |kernelX[0]| / 2;
    var sumRx, sumGx, sumBx := 0, 0, 0;
    var sumRy, sumGy, sumBy := 0, 0, 0;
    var dx := -radiusX;
    ghost var i := 0;
    while dx <= radiusX
      invariant -radiusX <= dx <= radiusX + 1 && i == dx + radiusX
      invariant FullColSumsAre(img, kernelX, x, y, i, sumRx, sumGx, sumBx)
      invariant FullColSumsAre(img, kernelY, x, y, i, sumRy, sumGy, sumBy)
    {
      ColSumsStart(img, kernelX, x, y, i, sumRx, sumGx, sumBx);
      ColSumsStart(img, kernelY, x, y, i, sumRy, sumGy, sumBy);
      assert PairSumsAre(img, kernelX, kernelY, x, y, i, 0, sumRx, sumGx, sumBx, sumRy, sumGy, sumBy);
      var dy := -radiusY;
      ghost var j := 0;
      while dy <= radiusY
        invariant -radiusY <= dy <= radiusY + 1 && j == dy + radiusY
        invariant PairSumsAre(img, kernelX, kernelY, x, y, i, j, sumRx, sumGx, sumBx, sumRy, sumGy, sumBy)
      {
        var idX := Clamp(x + dx, 0, width - 1);
        var idY := Clamp(y + dy, 0, height - 1);
        var neighborColor := img.At(idX, idY);
        var factorX := kernelX[dx + radiusX][dy + radiusY];
        var factorY := kernelY[dx + radiusX][dy + radiusY];
        PairSumsStep(img, kernelX, kernelY, x, y, i, j, neighborColor, factorX, factorY,
                     sumRx, sumGx, sumBx, sumRy, sumGy, sumBy);
        sumRx := sumRx + neighborColor.r * factorX;
        sumGx := sumGx + neighborColor.g * factorX;
        sumBx := sumBx + neighborColor.b * factorX;
        sumRy := sumRy + neighborColor.r * factorY;
        sumGy := sumGy + neighborColor.g * factorY;
        sumBy := sumBy + neighborColor.b * factorY;
        dy := dy + 1;
        j := j + 1;
      }
      ColSumsEnd(img, kernelX, x, y, i, sumRx, sumGx, sumBx);
      ColSumsEnd(img, kernelY, x, y, i, sumRy, sumGy, sumBy);
      dx := dx + 1;
      i := i + 1;
    }
    ColSumsDone(img, kernelX, x, y, sumRx, sumGx, sumBx);
    ColSumsDone(img, kernelY, x, y, sumRy, sumGy, sumBy);
    c := Color(Magnitude(sumRx, sumRy), Magnitude(sumGx, sumGy), Magnitude(sumBx, sumBy));
  }

  // ---------------------------------------------------------------- kernels

  /** SharpnessFilter. */
  const Sharpen: Kernel := [[0, -1, 0], [-1, 5, -1], [0, -1, 0]]

  /** Sharpness2Filter. */
  const Sharpen2: Kernel := [[-1, -1, -1], [-1, 9, -1], [-1, -1, -1]]

  /** SobelFilter. */
  const SobelX: Kernel := [[-1, 0, 1], [-2, 0, 2], [-1, 0, 1]]
  const SobelY: Kernel := [[-1, -2, -1], [0, 0, 0], [1, 2, 1]]

  /** SharraFilter (Scharr). */
  const ScharrX: Kernel := [[3, 0, -3], [10, 0, -10], [3, 0, -3]]
  const ScharrY: Kernel := [[3, 10, 3], [0, 0, 0], [-3, -10, -3]]

  /** PruittaFilter (Prewitt). */
  const PrewittX: Kernel := [[-1, 0, 1], [-1, 0, 1], [-1, 0, 1]]
  const PrewittY: Kernel := [[-1, -1, -1], [0, 0, 0], [1, 1, 1]]

  /** The shape of MotionBlurFilter's kernel: 10 x 10, non-zero on the
      diagonal only. Its weights are 1/10 in floating point; here each is
      scaled to 1, since only the shape matters for which cells are read. */
  const MotionBlurShape: Kernel := seq(10, i => seq(10, j => if i == j then 1 else 0))

  /** MotionBlurFilter's kernel has even dimensions, so the source's loops
      reach offset radius = 5 and read index radius + radius = 10, one past
      the last index 9: by MatrixPixelAsWritten's contract the as-written
      rule fails on it, for every bitmap and pixel. */
  lemma MotionBlurReadsPastKernel()
    ensures IsKernel(MotionBlurShape) && !IsOddKernel(MotionBlurShape)
    ensures |MotionBlurShape| / 2 + |MotionBlurShape| / 2 == |MotionBlurShape|
  {
  }

  /** MotionBlurFilter's CalculateNewColor as written fails at every pixel
      of every bitmap. */
  method MotionBlurPixelAsWritten(img: Image, x: int, y: int) returns (c: Option<Color>)
    requires img.Valid()
    ensures c.None?
  {
    MotionBlurReadsPastKernel();
    c := MatrixPixelAsWritten(img, MotionBlurShape, x, y);
  }

  /** Both sharpening kernels weigh 1 in total, so they keep flat regions. */
  lemma SharpenKernelsKeepFlat(img: Image, c: Color, x: int, y: int)
    requires img.Valid() && img.IsConstant(c)
    ensures IsOddKernel(Sharpen) && ConvolveColor(img, Sharpen, x, y) == c
    ensures IsOddKernel(Sharpen2) && ConvolveColor(img, Sharpen2, x, y) == c
  {
    assert WeightRow(Sharpen, 0, 3) == -1 && WeightRow(Sharpen, 1, 3) == 3 && WeightRow(Sharpen, 2, 3) == -1;
    assert WeightRow(Sharpen2, 0, 3) == -3 && WeightRow(Sharpen2, 1, 3) == 7 && WeightRow(Sharpen2, 2, 3) == -3;
    ConvolveKeepsFlat(img, c, Sharpen, x, y);
    ConvolveKeepsFlat(img, c, Sharpen2, x, y);
  }

  /** Each of the three gradient pairs weighs 0 in total in both directions,
      so each turns a one-colour bitmap black. */
  lemma SobelFindsNoEdgesInFlat(img: Image, c: Color, x: int, y: int)
    requires img.Valid() && img.IsConstant(c)
    ensures IsKernelPair(SobelX, SobelY) && GradientColor(img, SobelX, SobelY, x, y) == Black
  {
    assert WeightRow(SobelX, 0, 3) == -4 && WeightRow(SobelX, 1, 3) == 0 && WeightRow(SobelX, 2, 3) == 4;
    assert WeightRow(SobelY, 0, 3) == 0 && WeightRow(SobelY, 1, 3) == 0 && WeightRow(SobelY, 2, 3) == 0;
    GradientOfFlatIsBlack(img, c, SobelX, SobelY, x, y);
  }

  lemma ScharrFindsNoEdgesInFlat(img: Image, c: Color, x: int, y: int)
    requires img.Valid() && img.IsConstant(c)
    ensures IsKernelPair(ScharrX, ScharrY) && GradientColor(img, ScharrX, ScharrY, x, y) == Black
  {
    assert WeightRow(ScharrX, 0, 3) == 16 && WeightRow(ScharrX, 1, 3) == 0 && WeightRow(ScharrX, 2, 3) == -16;
    assert WeightRow(ScharrY, 0, 3) == 0 && WeightRow(ScharrY, 1, 3) == 0 && WeightRow(ScharrY, 2, 3) == 0;
    GradientOfFlatIsBlack(img, c, ScharrX, ScharrY, x, y);
  }

  lemma PrewittFindsNoEdgesInFlat(img: Image, c: Color, x: int, y: int)
    requires img.Valid() && img.IsConstant(c)
    ensures IsKernelPair(PrewittX, PrewittY) && GradientColor(img, PrewittX, PrewittY, x, y) == Black
  {
    assert WeightRow(PrewittX, 0, 3) == -3 && WeightRow(PrewittX, 1, 3) == 0 && WeightRow(PrewittX, 2, 3) == 3;
    assert WeightRow(PrewittY, 0, 3) == 0 && WeightRow(PrewittY, 1, 3) == 0 && WeightRow(PrewittY, 2, 3) == 0;
    GradientOfFlatIsBlack(img, c, PrewittX, PrewittY, x, y);
  }
}
