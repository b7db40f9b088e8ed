/** The filter family and the scan driver every filter inherits:
    ProcessImage walks the columns, reports progress, polls cancellation and
    fills a fresh bitmap with the per-pixel rule. */
module Scan {
  import opened Imaging
  import opened PointFilters
  import opened WindowFilters
  import opened Convolution

  /** The integer-exact filters: each constructor stands for one subclass
      and carries the state its constructor stores. */
  datatype Filter =
    | Invert
    | Brightness
    | Move
    | Median(windowSize: nat)
    | Max(windowSize: nat)
    | Matrix(kernel: Kernel)
    | TwoKernel(kernelX: Kernel, kernelY: Kernel)
  {
    /** The kernel shapes the per-pixel rules can index. */
    predicate Valid()
    {
      match this
      case Matrix(k) => IsKernel(k)
      case TwoKernel(kx, ky) => IsKernelPair(kx, ky)
      case _ => true
    }
  }

  const SharpnessFilter := Matrix(Sharpen)
  const Sharpness2Filter := Matrix(Sharpen2)
  const SobelFilter := TwoKernel(SobelX, SobelY)
  const ScharrFilter := TwoKernel(ScharrX, ScharrY)
  const PrewittFilter := TwoKernel(PrewittX, PrewittY)

  /** The colour each filter's CalculateNewColor gives pixel (x, y). */
  function NewColor(f: Filter, src: Image, x: int, y: int): Color
    requires f.Valid() && src.Valid() && src.InBounds(x, y)
  {
    match f
    case Invert => InvertColor(src.At(x, y))
    case Brightness => Brighten(src.At(x, y))
    case Move => MoveColor(src, x, y)
    case Median(ws) => MedianColor(src, ws, x, y)
    case Max(ws) => MaxColor(src, ws, x, y)
    case Matrix(k) => ConvolveColor(src, k, x, y)
    case TwoKernel(kx, ky) => GradientColor(src, kx, ky, x, y)
  }

  /** CalculateNewColor, dispatched on the filter. */
  method CalculateNewColor(f: Filter, src: Image, x: int, y: int) returns (c: Color)
    requires f.Valid() && src.Valid() && src.InBounds(x, y)
    ensures c == NewColor(f, src, x, y)
  {
    match f
    case Invert => c := InvertColor(src.At(x, y));
    case Brightness => c := Brighten(src.At(x, y));
    case Move => c := MoveColor(src, x, y);
    case Median(ws) => c := MedianPixel(src, ws, x, y);
    case Max(ws) => c := MaxPixel(src, ws, x, y);
    case Matrix(k) => c := MatrixPixel(src, k, x, y);
    case TwoKernel(kx, ky) => c := GradientPixel(src, kx, ky, x, y);
  }

  /** The bitmap a completed scan produces. */
  function Apply(f: Filter, src: Image): (out: Image)
    requires f.Valid() && src.Valid()
    ensures out.Valid() && out.width == src.width && out.height == src.height
    ensures forall x, y :: 0 <= x < src.width && 0 <= y < src.height ==> out.At(x, y) == NewColor(f, src, x, y)
  {
    var out := Image(src.width, src.height, seq(src.width, x requires 0 <= x < src.width => ApplyColumn(f, src, x)));
    assert forall x :: 0 <= x < src.width ==> out.pixels[x] == ApplyColumn(f, src, x);
    out
  }

  /** Column x of the bitmap a completed scan produces. */
  function ApplyColumn(f: Filter, src: Image, x: int): (col: seq<Color>)
    requires f.Valid() && src.Valid() && 0 <= x < src.width
    ensures |col| == src.height
    ensures forall y :: 0 <= y < src.height ==> col[y] == NewColor(f, src, x, y)
  {
    seq(src.height, y requires 0 <= y < src.height => NewColor(f, src, x, y))
  }

  /** The pixels of a result bitmap, read back as an image value. */
  function Snapshot(a: array2<Color>): (img: Image)
    reads a
    ensures img.width == a.Length0 && img.height == a.Length1 && |img.pixels| == a.Length0
    ensures forall x :: 0 <= x < a.Length0 ==> |img.pixels[x]| == a.Length1
    ensures forall x, y :: 0 <= x < a.Length0 && 0 <= y < a.Length1 ==> img.pixels[x][y] == a[x, y]
  {
    Image(a.Length0, a.Length1,
          seq(a.Length0, x requires 0 <= x < a.Length0 reads a =>
            seq(a.Length1, y requires 0 <= y < a.Length1 reads a => a[x, y])))
  }

  // ---------------------------------------------------------------- progress

  /** The percentage reported before column x: the offset plus the scale
      times the fraction of columns already done, rounded down. */
  function Progress(offset: int, scale: nat, width: nat, x: nat): (p: int)
    requires width > 0
    ensures width * (p - offset) <= x * scale < width * (p - offset + 1)
  {
    var q := x * scale / width;
    assert x * scale == width * q + x * scale % width;
    assert width * (q + 1) == width * q + width;
    offset + q
  }

  /** The reports of a complete scan, one per column. */
  function ProgressSeries(offset: int, scale: nat, width: nat): (s: seq<int>)
    requires width > 0
    ensures |s| == width
    ensures forall x :: 0 <= x < width ==> s[x] == Progress(offset, scale, width, x)
  {
    seq(width, x requires 0 <= x < width => Progress(offset, scale, width, x))
  }

  /** Progress never goes backwards. */
  lemma ProgressMonotone(offset: int, scale: nat, width: nat, i: nat, j: nat)
    requires width > 0 && i <= j
    ensures Progress(offset, scale, width, i) <= Progress(offset, scale, width, j)
  {
    assert i * scale <= j * scale;
    DivMonotone(i * scale, j * scale, width);
  }

  lemma DivMonotone(a: nat, b: nat, d: nat)
    requires d > 0 && a <= b
    ensures a / d <= b / d
  {
    var q, p := a / d, b / d;
    if q > p {
      MulMonotone(d, p + 1, q);
    }
  }

  lemma DivBelow(a: nat, d: nat, s: nat)
    requires d > 0 && a < d * s
    ensures a / d < s
  {
    var q := a / d;
    if q >= s {
      MulMonotone(d, s, q);
    }
  }

  lemma MulMonotone(d: nat, u: nat, v: nat)
    requires u <= v
    ensures d * u <= d * v
  {
    assert d * v == d * u + d * (v - u);
  }

  /** A scan's reports start at the offset and stay below offset + scale. */
  lemma ProgressBounds(offset: int, scale: nat, width: nat, x: nat)
    requires 0 <= x < width
    ensures Progress(offset, scale, width, 0) == offset
    ensures offset <= Progress(offset, scale, width, x)
    ensures scale > 0 ==> Progress(offset, scale, width, x) < offset + scale
    ensures scale == 0 ==> Progress(offset, scale, width, x) == offset
  {
    if scale > 0 {
      MulMonotone(scale, x + 1, width);
      assert x * scale < width * scale;
      DivBelow(x * scale, width, scale);
    }
  }

  // ---------------------------------------------------------------- worker

  /** The BackgroundWorker as the filters see it: the progress reports it
      has received, how many times CancellationPending has been read, and
      the first read that sees the user's CancelAsync (None: the user never
      cancels). Only reads observe the request, so the moment it arrives is
      fixed by the read that first sees it. */
  class Worker {
    var reports: seq<int>
    var polls: nat
    const cancelAfter: Option<nat>

    constructor(cancelAfter: Option<nat>)
      ensures reports == [] && polls == 0 && this.cancelAfter == cancelAfter
    {
      reports := [];
      polls := 0;
      this.cancelAfter := cancelAfter;
    }

    /** Reading CancellationPending: true from the first read after the
      request on, so once set it stays set. */
    method CancellationPending() returns (pending: bool)
      modifies this
      ensures polls == old(polls) + 1 && reports == old(reports)
      ensures pending <==> Cancels(cancelAfter, old(polls), 1)
    {
      polls := polls + 1;
      pending := cancelAfter.Some? && polls >= cancelAfter.value;
    }

    method ReportProgress(percent: int)
      modifies this
      ensures reports == old(reports) + [percent] && polls == old(polls)
    {
      reports := reports + [percent];
    }
  }

  /** Whether any of `width` reads of CancellationPending, made after
      `before` earlier ones, sees the request. */
  predicate Cancels(cancelAfter: Option<nat>, before: nat, width: nat)
  {
    cancelAfter.Some? && cancelAfter.value <= before + width
  }

  /** How many columns a scan of `width` columns, started after `before`
      reads, reports (and reads the flag after): all of them, or up to and
      including the first one whose read sees the request. */
  function ReportCount(cancelAfter: Option<nat>, before: nat, width: nat): (n: nat)
    requires width > 0
    ensures 1 <= n <= width
    ensures !Cancels(cancelAfter, before, width) ==> n == width
  {
    if !Cancels(cancelAfter, before, width) then width
    else if cancelAfter.value <= before then 1
    else cancelAfter.value - before
  }

  /** The inner loop of ProcessImage: column x of the result gets the
      filter's colour at every row; no other column changes. */
  method FillColumn(filter: Filter, srcImage: Image, bitmap: array2<Color>, x: int)
    requires filter.Valid() && srcImage.Valid()
    requires bitmap.Length0 == srcImage.width && bitmap.Length1 == srcImage.height && 0 <= x < srcImage.width
    modifies bitmap
    ensures forall i, j :: 0 <= i < bitmap.Length0 && 0 <= j < bitmap.Length1 ==>
              bitmap[i, j] == if i == x then NewColor(filter, srcImage, i, j) else old(bitmap[i, j])
  {
    var y := 0;
    while y < srcImage.height
      invariant 0 <= y <= srcImage.height
      invariant forall i, j :: 0 <= i < bitmap.Length0 && 0 <= j < bitmap.Length1 ==>
                  bitmap[i, j] == if i == x && j < y then NewColor(filter, srcImage, i, j) else old(bitmap[i, j])
    {
      var c := CalculateNewColor(filter, srcImage, x, y);
      bitmap[x, y] := c;
      y := y + 1;
    }
  }

  /** The read after column x's report is the first to see the request:
      the scan cancels, with x + 1 reports. */
  lemma StopsAtColumn(cancelAfter: Option<nat>, before: nat, x: nat, width: nat)
    requires x < width && (x > 0 ==> !Cancels(cancelAfter, before, x))
    requires cancelAfter.Some? && before + x + 1 >= cancelAfter.value
    ensures Cancels(cancelAfter, before, width)
    ensures ReportCount(cancelAfter, before, width) == x + 1
  {
  }

  /** A bitmap holding the filter's colour at every pixel reads back as the
      completed scan's image. */
  lemma BitmapIsApply(filter: Filter, srcImage: Image, bitmap: array2<Color>)
    requires filter.Valid() && srcImage.Valid()
    requires bitmap.Length0 == srcImage.width && bitmap.Length1 == srcImage.height
    requires forall i, j :: 0 <= i < srcImage.width && 0 <= j < srcImage.height ==> bitmap[i, j] == NewColor(filter, srcImage, i, j)
    ensures Snapshot(bitmap) == Apply(filter, srcImage)
  {
    SameImage(Snapshot(bitmap), Apply(filter, srcImage));
  }

  /** Filters.ProcessImage. Either a column's read of CancellationPending
      saw the request, the scan made only the reports up to that column and
      no bitmap comes back; or every column was reported and the fresh
      bitmap of the source's size holds the filter's colour at every pixel.
      One read of the flag follows each report. */
  method ProcessImage(filter: Filter, srcImage: Image, worker: Worker, progressOffset: int, progressScale: nat)
      returns (result: array2?<Color>)
    requires filter.Valid() && srcImage.Valid()
    modifies worker
    ensures worker.reports == old(worker.reports)
              + ProgressSeries(progressOffset, progressScale, srcImage.width)
                  [..ReportCount(worker.cancelAfter, old(worker.polls), srcImage.width)]
    ensures worker.polls == old(worker.polls) + ReportCount(worker.cancelAfter, old(worker.polls), srcImage.width)
    ensures result == null <==> Cancels(worker.cancelAfter, old(worker.polls), srcImage.width)
    ensures result != null ==> fresh(result) && result.Length0 == srcImage.width && result.Length1 == srcImage.height
    ensures result != null ==> Snapshot(result) == Apply(filter, srcImage)
  {
    var bitmap := new Color[srcImage.width, srcImage.height]((_, _) => Black);
    ghost var before := worker.polls;
    ghost var series := ProgressSeries(progressOffset, progressScale, srcImage.width);
    var x := 0;
    while x < srcImage.width
      invariant 0 <= x <= srcImage.width
      invariant worker.reports == old(worker.reports) + series[..x]
      invariant worker.polls == before + x
      invariant x > 0 ==> !Cancels(worker.cancelAfter, before, x)
      invariant forall i, j :: 0 <= i < x && 0 <= j < srcImage.height ==> bitmap[i, j] == NewColor(filter, srcImage, i, j)
    {
      var overallProgress := progressOffset + x * progressScale / srcImage.width;
      worker.ReportProgress(overallProgress);
      assert series[..x + 1] == series[..x] + [overallProgress];
      var pending := worker.CancellationPending();
      if pending {
        StopsAtColumn(worker.cancelAfter, before, x, srcImage.width);
        return null;
      }
      FillColumn(filter, srcImage, bitmap, x);
      x := x + 1;
    }
    assert series[..srcImage.width] == series;
    BitmapIsApply(filter, srcImage, bitmap);
    result := bitmap;
  }

  // ---------------------------------------------------------------- whole-image facts

  /** Inverting a bitmap twice gives it back. */
  lemma InvertTwice(img: Image)
    requires img.Valid()
    ensures Apply(Invert, Apply(Invert, img)) == img
  {
    forall x, y | 0 <= x < img.width && 0 <= y < img.height
      ensures Apply(Invert, Apply(Invert, img)).At(x, y) == img.At(x, y)
    {
      InvertInvolution(img.At(x, y));
    }
    SameImage(Apply(Invert, Apply(Invert, img)), img);
  }

  /** Brightness never darkens any channel of any pixel. */
  lemma BrightnessNeverDarkens(img: Image, x: int, y: int, ch: Ch)
    requires img.Valid() && img.InBounds(x, y)
    ensures Get(Apply(Brightness, img).At(x, y), ch) >= Get(img.At(x, y), ch)
  {
    BrightenNeverDarkens(img.At(x, y), ch);
  }

  /** A black 4x4 bitmap brightened is uniformly (50, 50, 50). */
  lemma BrightenBlackSquare()
    ensures Apply(Brightness, Filled(4, 4, Black)) == Filled(4, 4, Color(50, 50, 50))
  {
    SameImage(Apply(Brightness, Filled(4, 4, Black)), Filled(4, 4, Color(50, 50, 50)));
  }

  /** Moving twice shifts by 100 columns, black where that runs off the
      right edge. */
  lemma MoveTwice(img: Image, x: int, y: int)
    requires img.Valid() && img.InBounds(x, y)
    ensures Apply(Move, Apply(Move, img)).At(x, y)
         == if x + 2 * Shift < img.width then img.At(x + 2 * Shift, y) else Black
  {
  }

  /** MaxFilter never darkens any channel of any pixel. */
  lemma MaxNeverDarkens(img: Image, windowSize: nat, x: int, y: int, ch: Ch)
    requires img.Valid() && img.InBounds(x, y)
    ensures Get(Apply(Max(windowSize), img).At(x, y), ch) >= Get(img.At(x, y), ch)
  {
    MaxDominatesCentre(img, windowSize, x, y, ch);
  }

  /** A filter whose rule gives one colour everywhere paints the bitmap that
      colour. */
  lemma ApplyUniform(f: Filter, img: Image, c: Color)
    requires f.Valid() && img.Valid()
    requires forall x, y :: 0 <= x < img.width && 0 <= y < img.height ==> NewColor(f, img, x, y) == c
    ensures Apply(f, img) == Filled(img.width, img.height, c)
  {
    SameImage(Apply(f, img), Filled(img.width, img.height, c));
  }

  /** MedianFilter leaves a one-colour bitmap as it is. */
  lemma MedianKeepsFlat(windowSize: nat, w: nat, h: nat, c: Color)
    requires w >= 1 && h >= 1
    ensures Apply(Median(windowSize), Filled(w, h, c)) == Filled(w, h, c)
  {
    var img := Filled(w, h, c);
    forall x, y | 0 <= x < w && 0 <= y < h
      ensures MedianColor(img, windowSize, x, y) == c
    {
      MedianOfConstant(img, c, windowSize, x, y);
    }
    ApplyUniform(Median(windowSize), img, c);
  }

  /** MaxFilter leaves a one-colour bitmap as it is. */
  lemma MaxKeepsFlat(windowSize: nat, w: nat, h: nat, c: Color)
    requires w >= 1 && h >= 1
    ensures Apply(Max(windowSize), Filled(w, h, c)) == Filled(w, h, c)
  {
    var img := Filled(w, h, c);
    forall x, y | 0 <= x < w && 0 <= y < h
      ensures MaxColor(img, windowSize, x, y) == c
    {
      MaxOfConstant(img, c, windowSize, x, y);
    }
    ApplyUniform(Max(windowSize), img, c);
  }

  /** Both sharpening filters leave a one-colour bitmap as it is. */
  lemma SharpnessKeepsFlat(f: Filter, w: nat, h: nat, c: Color)
    requires w >= 1 && h >= 1
    requires f == SharpnessFilter || f == Sharpness2Filter
    ensures f.Valid() && Apply(f, Filled(w, h, c)) == Filled(w, h, c)
  {
    var img := Filled(w, h, c);
    forall x, y | 0 <= x < w && 0 <= y < h
      ensures NewColor(f, img, x, y) == c
    {
      SharpenKernelsKeepFlat(img, c, x, y);
    }
    ApplyUniform(f, img, c);
  }

  /** The gradient filters find no edge in a one-colour bitmap: it turns black. */
  lemma FlatHasNoEdges(f: Filter, w: nat, h: nat, c: Color)
    requires w >= 1 && h >= 1
    requires f == SobelFilter || f == ScharrFilter || f == PrewittFilter
    ensures f.Valid() && Apply(f, Filled(w, h, c)) == Filled(w, h, Black)
  {
    var img := Filled(w, h, c);
    forall x, y | 0 <= x < w && 0 <= y < h
      ensures NewColor(f, img, x, y) == Black
    {
      if f == SobelFilter {
        SobelFindsNoEdgesInFlat(img, c, x, y);
      } else if f == ScharrFilter {
        ScharrFindsNoEdgesInFlat(img, c, x, y);
      } else {
        PrewittFindsNoEdgesInFlat(img, c, x, y);
      }
    }
    ApplyUniform(f, img, Black);
  }
}
