# Filters: a verified model of the image-filter engine

This project models the filter engine of a small WinForms image editor. The
engine is `Filters/Filters.cs`. Its base class `Filters` drives a scan
(`ProcessImage`). The scan walks the bitmap column by column, reports
progress to a `BackgroundWorker` before each column, and stops with `null`
as soon as cancellation is pending. Otherwise it fills a fresh bitmap of the
source's size with the subclass's `CalculateNewColor`.

The modelled per-pixel rules are the integer-exact ones:

- the point filters Invert, Brightness (+50, clamped) and Move (50 columns
  to the left, black past the edge);
- the rank filters Median and Max over a clamped `(2r+1) x (2r+1)` window;
- the kernel filter `MatrixFilter` with the integer kernels of Sharpness and
  Sharpness-2;
- the gradient filter `TwoKernelFilter` with the Sobel, Scharr ("Sharra")
  and Prewitt ("Pruitta") kernel pairs.

The two branches of the form's background work are modelled too
(`Filters/Form1.cs:48-74`): one filter over the whole 0..100 progress bar,
and the "glowing edges" chain (median 3x3, then Sobel, then max 3x3) over
the shares 0/33, 33/33 and 66/34, which stops at the first cancellation.

Layout, one module per file:

- `imaging.dfy` (`Imaging`): colours with 8-bit channels, bitmaps as
  `pixels[x][y]`, `Clamp`, and the edge-replicating sampler every
  neighbourhood rule reads through.
- `sorting.dfy` (`Sorting`): `List<int>.Sort` as a sorted permutation and
  the middle element of a sorted list, with its rank properties.
- `point_filters.dfy` (`PointFilters`): Invert, Brightness, Move.
- `window_filters.dfy` (`WindowFilters`): Median and Max. Each is a
  specification function over the window, plus a method with the source's
  nested loops proved equal to it.
- `convolution.dfy` (`Convolution`): MatrixFilter and TwoKernelFilter, as
  specification functions and as methods with the source's loops. The two
  filters visit the window in different orders, and a lemma shows the order
  does not matter. Also the kernels, and the as-written MatrixFilter that
  fails on even kernels (see Findings).
- `scan.dfy` (`Scan`): the filter family, `CalculateNewColor`, the worker
  (progress reports and cancellation) and `ProcessImage` over a 2-D array,
  with whole-bitmap facts.
- `pipeline.dfy` (`Pipeline`): the form's picture (`Editor`) and the two
  branches of the background work.

Values, not objects, stand for source bitmaps (`Imaging.Image`). The result
bitmap of `ProcessImage` is a fresh `array2<Color>` that the method fills in
place, and `Scan.Snapshot` reads it back as a value.

## Model

| member | source | states |
|---|---|---|
| Imaging.Clamp | Filters/Filters.cs:31-44 | With min <= max the result lies in [min, max]. A value already in range comes back unchanged. Otherwise the result is one of the two bounds. |
| Imaging.ClampMonotone | Filters/Filters.cs:31-44 | A larger input never clamps to a smaller result. |
| Imaging.ClampIdempotent | Filters/Filters.cs:31-44 | Clamping twice is the same as clamping once. |
| Imaging.Sample | Filters/Filters.cs:130-132 | The clamped neighbour read equals GetPixel(x, y) whenever (x, y) is inside the bitmap. |
| Imaging.EdgeReplication | Filters/Filters.cs:130-131 | Outside the bitmap the sampler repeats the nearest edge row or column, on each of the four sides. |
| Imaging.SampleConstant | Filters/Filters.cs:130-132 | On a one-colour bitmap every sample, in range or not, is that colour. |
| PointFilters.InvertColor | Filters/Filters.cs:50-56 | Each result channel plus the source channel is 255. |
| PointFilters.InvertInvolution | Filters/Filters.cs:53 | Inverting a colour twice gives it back. |
| PointFilters.Brighten | Filters/Filters.cs:96-107 | Each channel becomes c + 50 when that is at most 255, and 255 otherwise. |
| PointFilters.BrightenNeverDarkens | Filters/Filters.cs:100-102 | No channel decreases, and a channel saturates at 255 exactly when it started at 205 or above. |
| PointFilters.MoveColor | Filters/Filters.cs:476-484 | The pixel 50 columns to the right when that is inside the bitmap, black when it lies past the right edge. |
| Sorting.Sort | Filters/Filters.cs:139-141 | The result is sorted, has the same length and is a permutation (same multiset) of the list. |
| Sorting.SortIsTheSortedPermutation | Filters/Filters.cs:139-141 | Every sorted permutation of a list equals Sort of it, so the result does not depend on the sorting algorithm used. |
| Sorting.SortedPermutationsEqual | Filters/Filters.cs:139-141 | Two sorted lists with the same multiset of elements are equal. |
| Sorting.Median | Filters/Filters.cs:142-144 | The element at index count / 2 of the sorted list is one of the list's values. |
| Sorting.MedianSplits | Filters/Filters.cs:142-144 | At most count / 2 values lie strictly below that element, and at most count - 1 - count / 2 strictly above it. |
| Sorting.MedianConstant | Filters/Filters.cs:139-144 | For a non-empty list of one repeated value, that element is the value. |
| WindowFilters.WindowSize | Filters/Filters.cs:126-137 | The window of radius r holds (2r+1)^2 cells, an odd number. |
| WindowFilters.WindowHasCell | Filters/Filters.cs:126-132 | Every neighbour at offsets (dx, dy) with both offsets within the radius is a cell of the window. |
| WindowFilters.WindowCellsArePixels | Filters/Filters.cs:130-132 | Every cell of a window is a pixel of the bitmap at in-bounds coordinates: the rules never read outside the bitmap. |
| WindowFilters.WindowOfConstant | Filters/Filters.cs:130-132 | On a one-colour bitmap every window cell is that colour. |
| WindowFilters.MedianChannel | Filters/Filters.cs:139-144 | The median of a channel is that channel's value in one of the cells. |
| WindowFilters.MedianPixel | Filters/Filters.cs:119-145 | The source's loops (three lists filled in dx-then-dy order, each sorted, middle index taken) compute MedianColor. |
| WindowFilters.ListSoFarIsValues | Filters/Filters.cs:126-137 | At every loop position the list holds that channel of exactly the cells visited so far, in visiting order. |
| WindowFilters.MedianOfLists | Filters/Filters.cs:139-144 | Once the loops end, the three lists have one length, greater than 0, and the middle elements of the sorted lists are MedianColor's channels. |
| WindowFilters.MedianOfConstant | Filters/Filters.cs:119-145 | On a one-colour bitmap the median is that colour. |
| WindowFilters.MedianIsMiddle | Filters/Filters.cs:139-144 | Each channel of the result is a true median of the window: at most half of the (2r+1)^2 values lie below it and at most half above it. |
| WindowFilters.RunningMaxIsLargest | Filters/Filters.cs:160-173 | Folding Math.Max from 0 over a non-empty list gives a value of the list that is at least every value in it. |
| WindowFilters.MaxPixel | Filters/Filters.cs:157-176 | The source's loops (three Math.Max accumulators starting at 0) compute MaxColor. |
| WindowFilters.MaxSoFarIsRunningMax | Filters/Filters.cs:162-173 | At every loop position each accumulator is the Math.Max fold of the cells visited so far. |
| WindowFilters.MaxOfAccumulators | Filters/Filters.cs:175 | Once the loops end, the three accumulators are MaxColor's channels. |
| WindowFilters.MaxIsWindowMaximum | Filters/Filters.cs:160-175 | Each channel of the result equals some cell's channel and is at least every cell's channel. |
| WindowFilters.MaxDominatesCentre | Filters/Filters.cs:157-176 | Each channel of the result is at least the source pixel's channel. |
| WindowFilters.MaxOfConstant | Filters/Filters.cs:157-176 | On a one-colour bitmap the maximum is that colour. |
| Convolution.SumOrderIrrelevant | Filters/Filters.cs:386-406 | Summing the kernel terms column by column (TwoKernelFilter's order) gives the same total as row by row (MatrixFilter's order). |
| Convolution.ConvolveConstant | Filters/Filters.cs:202-215 | On a one-colour bitmap the weighted sum is the channel value times the kernel's total weight. |
| Convolution.ConvolveKeepsFlat | Filters/Filters.cs:193-222 | A kernel whose weights add up to 1 leaves a one-colour bitmap unchanged. |
| Convolution.MatrixPixel | Filters/Filters.cs:193-222 | The loops, bounded by the kernel's own index range, compute each channel's weighted sum clamped to 0..255, for kernels of any size. |
| Convolution.MatrixPixelAsWritten | Filters/Filters.cs:193-222 | The loops exactly as written fail (None) if and only if a kernel dimension is even. Otherwise they compute the same colour as MatrixPixel. |
| Convolution.MotionBlurReadsPastKernel | Filters/Filters.cs:336-346 | MotionBlurFilter's kernel is 10 x 10, so the last offset reads index 10 of a dimension of length 10. |
| Convolution.MotionBlurPixelAsWritten | Filters/Filters.cs:336-346 | MotionBlurFilter's CalculateNewColor as written fails at every pixel of every bitmap. |
| Convolution.MotionBlurShape | Filters/Filters.cs:338-345 | The 10 x 10 kernel with only its diagonal set. Its weights are scaled from 1/10 to 1, since only the shape is used. |
| Convolution.Sharpen | Filters/Filters.cs:282-287 | SharpnessFilter's kernel table, entry for entry. |
| Convolution.Sharpen2 | Filters/Filters.cs:353-358 | Sharpness2Filter's kernel table, entry for entry. |
| Convolution.SobelX | Filters/Filters.cs:419-424 | SobelFilter's first kernel table. |
| Convolution.SobelY | Filters/Filters.cs:425-430 | SobelFilter's second kernel table. |
| Convolution.ScharrX | Filters/Filters.cs:438-443 | SharraFilter's first kernel table. |
| Convolution.ScharrY | Filters/Filters.cs:444-449 | SharraFilter's second kernel table. |
| Convolution.PrewittX | Filters/Filters.cs:457-462 | PruittaFilter's first kernel table. |
| Convolution.PrewittY | Filters/Filters.cs:463-468 | PruittaFilter's second kernel table. |
| Convolution.SharpenKernelsKeepFlat | Filters/Filters.cs:282-287 | The Sharpness kernel (and the Sharpness-2 kernel of lines 353-358) has odd size and total weight 1, so it keeps a one-colour bitmap. |
| Convolution.ISqrt | Filters/Filters.cs:408-410 | The result r satisfies r^2 <= n < (r+1)^2. |
| Convolution.ISqrtUnique | Filters/Filters.cs:408-410 | Only one r satisfies r^2 <= n < (r+1)^2, so ISqrt is the floor of the square root. |
| Convolution.GradientPixel | Filters/Filters.cs:373-413 | One pass in dx-then-dy order, accumulating both kernels' sums per channel, computes the clamped floor of the magnitude sqrt(sx^2 + sy^2) of the two weighted sums. |
| Convolution.GradientOfFlatIsBlack | Filters/Filters.cs:373-413 | Two kernels that each weigh 0 in total give black on a one-colour bitmap. |
| Convolution.SobelFindsNoEdgesInFlat | Filters/Filters.cs:416-433 | The Sobel pair has a valid shape, and each kernel weighs 0 in total, so it finds no edge in a one-colour bitmap. |
| Convolution.ScharrFindsNoEdgesInFlat | Filters/Filters.cs:435-452 | The same for the Scharr pair. |
| Convolution.PrewittFindsNoEdgesInFlat | Filters/Filters.cs:454-471 | The same for the Prewitt pair. |
| Scan.CalculateNewColor | Filters/Filters.cs:10 | Dispatching on the filter, each subclass's loop-based rule computes that filter's specified colour. |
| Scan.NewColor | Filters/Filters.cs:50-484 | Each filter's CalculateNewColor override, as the specification function of that rule (no contract of its own; its partners are the per-rule lemmas in this table). |
| Scan.Apply | Filters/Filters.cs:15-25 | The completed scan's bitmap has the source's size, and every pixel is the filter's colour for that position. |
| Scan.ProgressSeries | Filters/Filters.cs:18-19 | A full scan makes one report per column, and the report for column x is offset + floor(x * scale / width). |
| Scan.ProgressMonotone | Filters/Filters.cs:18-19 | Progress never goes backwards from one column to a later one. |
| Scan.ProgressBounds | Filters/Filters.cs:18-19 | The first report is the offset, and every report lies in [offset, offset + scale) when scale > 0. |
| Scan.Worker.ReportProgress | Filters/Filters.cs:19 | The report is appended to the worker's reports, and the count of reads of the flag is unchanged. |
| Scan.Worker.CancellationPending | Filters/Filters.cs:20 | Each read of the flag is counted. A read sees the request exactly when it is the first read after the request or a later one, so once set the flag stays set. |
| Scan.Progress | Filters/Filters.cs:18 | The report for column x is offset plus the floor of x * scale / width, stated as width * (p - offset) <= x * scale < width * (p - offset + 1). |
| Scan.ReportCount | Filters/Filters.cs:16-21 | A scan reports between 1 and width columns, each followed by one read of CancellationPending. It reports all width columns when none of those reads sees the request. |
| Scan.FillColumn | Filters/Filters.cs:22-25 | Column x of the result holds the filter's colour at every row, and no other pixel changes. |
| Scan.StopsAtColumn | Filters/Filters.cs:19-21 | When cancellation is first seen after column x's report, the scan is cancelled with exactly x + 1 reports. |
| Scan.BitmapIsApply | Filters/Filters.cs:22-28 | A bitmap holding the filter's colour at every pixel reads back as the completed scan's image. |
| Scan.ProcessImage | Filters/Filters.cs:13-29 | Each column is reported and then the flag is read once. The reports are the progress series up to and including the first column whose read sees the request. The result is null exactly when such a column exists. Otherwise the result is a fresh bitmap of the source's size with every pixel equal to CalculateNewColor, even when the request arrives after the last read. |
| Scan.InvertTwice | Filters/Filters.cs:50-56 | Inverting a whole bitmap twice gives it back. |
| Scan.BrightnessNeverDarkens | Filters/Filters.cs:96-107 | No channel of any pixel gets darker under Brightness. |
| Scan.BrightenBlackSquare | Filters/Filters.cs:96-107 | A black 4x4 bitmap brightens to a uniform (50, 50, 50). |
| Scan.MoveTwice | Filters/Filters.cs:476-484 | Moving twice shifts by 100 columns, black where that runs past the right edge. |
| Scan.MaxNeverDarkens | Filters/Filters.cs:157-176 | No channel of any pixel gets darker under Max. |
| Scan.MedianKeepsFlat | Filters/Filters.cs:119-145 | The median filter leaves a one-colour bitmap as it is. |
| Scan.MaxKeepsFlat | Filters/Filters.cs:157-176 | The max filter leaves a one-colour bitmap as it is. |
| Scan.SharpnessKeepsFlat | Filters/Filters.cs:278-289 | Both sharpening filters leave a one-colour bitmap as it is. |
| Scan.FlatHasNoEdges | Filters/Filters.cs:373-413 | Sobel, Scharr and Prewitt turn a one-colour bitmap black. |
| Pipeline.GlowingEdgesImage | Filters/Form1.cs:54-62 | Median, then Sobel, then max yields a valid bitmap of the source's size. |
| Pipeline.GlowingProgress | Filters/Form1.cs:54-62 | The uncancelled chain makes 3 * width reports. |
| Pipeline.GlowingProgressIsOneBar | Filters/Form1.cs:54-62 | The chain's reports form one bar: they start at 0, are 33 and 66 where the second and third stages start, never decrease, and stay within 0..99. |
| Pipeline.StageValue | Filters/Form1.cs:54-62 | Report i comes from the scan of its stage at its column, and lies inside that stage's share of the bar. |
| Pipeline.GlowingEdgesOfFlat | Filters/Form1.cs:54-62 | Glowing edges turns a one-colour bitmap black. |
| Pipeline.ScanAndCheck | Filters/Form1.cs:54-56 | One scan followed by the form's read of the flag. The reports and reads are those of the scan plus one. The result is None exactly when that read sees the request, either because the scan stopped or because the request arrived while the last column was being filled. Otherwise it is the filtered picture. |
| Pipeline.CheckAfterScan | Filters/Form1.cs:70-71 | The form's read after a scan sees the request exactly when the request came before the end of the scan or before that read. A scan that stopped leaves the request visible. |
| Pipeline.Editor.RunFilter | Filters/Form1.cs:68-73 | With no picture, the scan throws before any report and nothing changes (failed). Otherwise the reports are the 0..100 series up to cancellation, and the reads are the scan's plus the form's one. The picture becomes the filtered bitmap exactly when no read, the form's included, saw the request, and stays as it was otherwise. |
| Pipeline.Editor.GlowingEdges | Filters/Form1.cs:50-67 | With no source picture, the first scan throws before any report and nothing changes (failed). Otherwise the reports, reads and picture are those ChainOutcome describes. |
| Pipeline.StagesRun | Filters/Form1.cs:54-63 | Between 1 and 3 scans start. Fewer than 3 start exactly when one of the reads of the first two scans or of the form's checks after them sees the request. |
| Pipeline.ChainReportCount | Filters/Form1.cs:54-63 | The chain makes at most 3 * width reports, and all of them when no read sees the request. |
| Pipeline.FirstStageStops | Filters/Form1.cs:54-56 | When the first scan or the check after it sees the request, the chain's outcome is the first scan's reports and reads plus one, with the picture unchanged. |
| Pipeline.SecondStageStops | Filters/Form1.cs:58-60 | When the second scan or the check after it is the first to see the request, the chain's outcome is the whole first series followed by the second scan's reports, with the picture unchanged. |
| Pipeline.ThirdStage | Filters/Form1.cs:62-66 | Once the third scan runs, the chain is cancelled exactly when that scan or the check after it sees the request. Otherwise the picture is median, then Sobel, then max of the source. |

## Left out

- Floating-point filters are not modelled. GrayScale, Sepia and Emboss use fractional luminance weights. Blur and MotionBlur have 1/9 and 1/10 weights. Gaussian builds its kernel with `Math.Exp`. Rotate, Wave1 and Wave2 use `Math.Sin`/`Math.Cos`. Only MotionBlur's kernel shape enters the model, for the finding below.
- GlassFilter is not modelled: it draws from an unseeded `System.Random`.
- Scan.Progress: the source computes `(int)((double)x / Width * progressScale)` in double precision. The model uses the exact floor of `x * scale / width`, and double rounding can make a report one lower where the exact quotient is a whole number.
- Convolution.ISqrt: the gradient magnitude is modelled as the exact integer floor square root, not as `(int)Math.Sqrt` on doubles. With these kernels a channel's sum is at most 8160 in absolute value, so the argument stays below 2^28, where the two agree.
- Kernel weights are modelled as integers. Every modelled kernel has integer weights, and its sums (at most 8160 in absolute value) are exact in `float` and `double`. The `(int)` cast of a whole number is then the identity.
- Convolution.GradientPixel requires an odd-sized first kernel (`IsKernelPair`). With an even one the source would read past the kernel, as MatrixFilter does, but all three pairs the source defines are 3 x 3.
- WindowFilters.MedianPixel and WindowFilters.MaxPixel take the window size as a natural number. No caller passes a negative size. C# division truncates, so a size of -1 would give radius 0, the same 1 x 1 window as a size of 1. A size of -2 or less would give an empty window: Median would then throw on the empty list and Max would return black.
- WindowFilters.MedianPixel sorts its lists with the function `Sorting.Sort` instead of `List<int>.Sort` in place. Sorting.SortIsTheSortedPermutation shows that the result is the same for any correct sort.
- The alpha channel is not modelled. `Color.FromArgb(r, g, b)` makes opaque colours, and every rule builds its result that way except MoveFilter. MoveFilter returns the source pixel itself, so shifted pixels keep their alpha. The model drops alpha there too.
- Scan.CalculateNewColor: for a `Matrix` filter with an even kernel, the scan uses the corrected rule (Convolution.MatrixPixel). The source throws at the first pixel there; see Findings and Convolution.MatrixPixelAsWritten.
- `Bitmap.GetPixel`/`SetPixel` become reads of the `Image` value and writes to the result `array2`. Bitmaps with a zero dimension are not valid, since System.Drawing refuses to create them.
- Scan.Worker: the BackgroundWorker's threads are not modelled. Only reads of `CancellationPending` observe a `CancelAsync`, so the moment the request arrives is given by the number of the first read that sees it. Reads include those of ProcessImage and the form's checks after each scan. The progress bar update in `ProgressChanged` is left out.
- Form1's UI is not modelled: menu handlers, file dialogs, saving, message boxes, the undo stack that `ApplyFilter` pushes onto, and `RunWorkerCompleted` redrawing the picture box. The glowing-edges branch reads `pictureBox1.Image`; here it is the `sourceImage` parameter. Like `_image`, it is None until a file is opened.
- C# `int` overflow cannot occur in the modelled rules, because every sum is bounded far below 2^31. The model therefore uses unbounded integers.

## Findings

| source | as written | input that shows it | evidently intended | confidence | as-written member | corrected member |
|---|---|---|---|---|---|---|
| Filters/Filters.cs:193-222 | The loops run the offsets from -radius to +radius, with radius = GetLength / 2, and read `Kernel[k + radiusX, l + radiusY]`. For an even dimension this reaches index GetLength, one past the end. | MotionBlurFilter (Filters/Filters.cs:336-346, menu at Filters/Form1.cs:166) builds a 10 x 10 kernel. At pixel (0, 0), after the scan's first progress report, the read at l = -5, k = 5 is `Kernel[10, 0]`. It throws IndexOutOfRangeException, which ends the whole scan. | The loops cover exactly the kernel's own indices 0 .. GetLength - 1, so every kernel size is accepted. | not executed | Convolution.MatrixPixelAsWritten | Convolution.MatrixPixel |
