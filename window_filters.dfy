/** The order-statistic filters MedianFilter and MaxFilter: each channel of the
    result is a rank statistic of that channel over the (2r+1) x (2r+1) window
    around the pixel, read through the edge-replicating sampler. */
module WindowFilters {
  import opened Imaging
  import opened Sorting

  /** The cells at column offset dx for row offsets -r .. hi-1, in the order
      the inner loop over dy visits them. */
  function ColumnCells(img: Image, r: nat, x: int, y: int, dx: int, hi: int): (cs: seq<Color>)
    requires img.Valid() && 0 <= hi + r
    ensures |cs| == hi + r
    decreases hi + r
  {
    if hi + r == 0 then []
    else ColumnCells(img, r, x, y, dx, hi - 1) + [Sample(img, x + dx, y + hi - 1)]
  }

  /** The cells for column offsets -r .. hi-1, all rows each, in the order the
      two nested loops visit them. */
  function WindowCells(img: Image, r: nat, x: int, y: int, hi: int): (cs: seq<Color>)
    requires img.Valid() && 0 <= hi + r
    decreases hi + r
  {
    if hi + r == 0 then []
    else WindowCells(img, r, x, y, hi - 1) + ColumnCells(img, r, x, y, hi - 1, r + 1)
  }

  lemma {:induction false} WindowCellsLength(img: Image, r: nat, x: int, y: int, hi: int)
    requires img.Valid() && 0 <= hi + r
    ensures |WindowCells(img, r, x, y, hi)| == (hi + r) * (2 * r + 1)
    decreases hi + r
  {
    if hi + r != 0 {
      WindowCellsLength(img, r, x, y, hi - 1);
      assert (hi + r) * (2 * r + 1) == (hi - 1 + r) * (2 * r + 1) + (2 * r + 1);
    }
  }

  /** The whole window of radius r around (x, y). */
  function Window(img: Image, r: nat, x: int, y: int): seq<Color>
    requires img.Valid()
  {
    WindowCells(img, r, x, y, r + 1)
  }

  /** One channel of each cell, in order, as the filters collect it into a
      list. */
  function Values(cs: seq<Color>, ch: Ch): (vs: seq<int>)
    ensures |vs| == |cs|
  {
    if cs == [] then [] else Values(cs[..|cs| - 1], ch) + [Get(cs[|cs| - 1], ch)]
  }

  lemma ValuesAppend(cs: seq<Color>, c: Color, ch: Ch)
    ensures Values(cs + [c], ch) == Values(cs, ch) + [Get(c, ch)]
  {
    assert (cs + [c])[..|cs|] == cs;
  }

  /** Entry i of the list is cell i's channel. */
  lemma {:induction false} ValuesAt(cs: seq<Color>, ch: Ch)
    ensures forall i :: 0 <= i < |cs| ==> Values(cs, ch)[i] == Get(cs[i], ch)
  {
    if cs != [] {
      ValuesAt(cs[..|cs| - 1], ch);
    }
  }

  /** A window always holds (2r+1)^2 cells, an odd number. */
  lemma WindowSize(img: Image, r: nat, x: int, y: int)
    requires img.Valid()
    ensures |Window(img, r, x, y)| == (2 * r + 1) * (2 * r + 1)
    ensures |Window(img, r, x, y)| % 2 == 1
  {
    WindowCellsLength(img, r, x, y, r + 1);
    OddSquare(r);
  }

  lemma OddSquare(r: nat)
    ensures (2 * r + 1) * (2 * r + 1) % 2 == 1
  {
    assert (2 * r + 1) * (2 * r + 1) == 2 * (2 * r * r + 2 * r) + 1;
  }

  /** Every neighbour at offsets within the radius is one of the window's cells. */
  lemma {:induction false} ColumnHasCell(img: Image, r: nat, x: int, y: int, dx: int, dy: int, hi: int)
    requires img.Valid() && -(r as int) <= dy < hi
    ensures Sample(img, x + dx, y + dy) in ColumnCells(img, r, x, y, dx, hi)
    decreases hi + r
  {
    var cell := Sample(img, x + dx, y + dy);
    var earlier := ColumnCells(img, r, x, y, dx, hi - 1);
    assert ColumnCells(img, r, x, y, dx, hi) == earlier + [Sample(img, x + dx, y + hi - 1)];
    if dy < hi - 1 {
      ColumnHasCell(img, r, x, y, dx, dy, hi - 1);
      assert cell in earlier;
    }
  }

  lemma {:induction false} WindowCellsHaveCell(img: Image, r: nat, x: int, y: int, dx: int, dy: int, hi: int)
    requires img.Valid() && -(r as int) <= dx < hi && -(r as int) <= dy <= r
    ensures Sample(img, x + dx, y + dy) in WindowCells(img, r, x, y, hi)
    decreases hi + r
  {
    var cell := Sample(img, x + dx, y + dy);
    var earlier := WindowCells(img, r, x, y, hi - 1);
    var last := ColumnCells(img, r, x, y, hi - 1, r + 1);
    assert WindowCells(img, r, x, y, hi) == earlier + last;
    if dx < hi - 1 {
      WindowCellsHaveCell(img, r, x, y, dx, dy, hi - 1);
      assert cell in earlier;
    } else {
      ColumnHasCell(img, r, x, y, dx, dy, r + 1);
      assert cell in last;
    }
  }

  lemma WindowHasCell(img: Image, r: nat, x: int, y: int, dx: int, dy: int)
    requires img.Valid() && -(r as int) <= dx <= r && -(r as int) <= dy <= r
    ensures Sample(img, x + dx, y + dy) in Window(img, r, x, y)
  {
    WindowCellsHaveCell(img, r, x, y, dx, dy, r + 1);
  }

  /** Every cell of a window is one of the bitmap's own pixels: the filters
      never read outside the bitmap. */
  lemma {:induction false} WindowCellsArePixels(img: Image, r: nat, x: int, y: int, hi: int, k: int)
    requires img.Valid() && 0 <= hi + r && 0 <= k < |WindowCells(img, r, x, y, hi)|
    ensures exists px, py :: img.InBounds(px, py) && WindowCells(img, r, x, y, hi)[k] == img.At(px, py)
    decreases hi + r
  {
    var prefix := WindowCells(img, r, x, y, hi - 1);
    if hi + r == 0 {
    } else if k < |prefix| {
      WindowCellsArePixels(img, r, x, y, hi - 1, k);
    } else {
      ColumnCellsArePixels(img, r, x, y, hi - 1, r + 1, k - |prefix|);
    }
  }

  lemma {:induction false} ColumnCellsArePixels(img: Image, r: nat, x: int, y: int, dx: int, hi: int, k: int)
    requires img.Valid() && 0 <= hi + r && 0 <= k < |ColumnCells(img, r, x, y, dx, hi)|
    ensures exists px, py :: img.InBounds(px, py) && ColumnCells(img, r, x, y, dx, hi)[k] == img.At(px, py)
    decreases hi + r
  {
    if k < hi - 1 + r {
      ColumnCellsArePixels(img, r, x, y, dx, hi - 1, k);
    } else {
      var px := Clamp(x + dx, 0, img.width - 1);
      var py := Clamp(y + hi - 1, 0, img.height - 1);
      assert img.InBounds(px, py);
    }
  }

  /** On a one-colour bitmap every cell of every window is that colour. */
  lemma WindowOfConstant(img: Image, c: Color, r: nat, x: int, y: int)
    requires img.Valid() && img.IsConstant(c)
    ensures forall k :: 0 <= k < |Window(img, r, x, y)| ==> Window(img, r, x, y)[k] == c
  {
    var w := Window(img, r, x, y);
    forall k | 0 <= k < |w|
      ensures w[k] == c
    {
      WindowCellsArePixels(img, r, x, y, r + 1, k);
    }
  }

  // ---------------------------------------------------------------- median

  /** MedianFilter's colour: per channel, the element at index count / 2 of the
      sorted window values, with radius windowSize / 2. */
  function MedianColor(img: Image, windowSize: nat, x: int, y: int): Color
    requires img.Valid()
  {
    var cells := Window(img, windowSize / 2, x, y);
    WindowSize(img, windowSize / 2, x, y);
    Color(MedianChannel(cells, Red), MedianChannel(cells, Green), MedianChannel(cells, Blue))
  }

  /** The median of one channel over a non-empty list of cells. */
  function MedianChannel(cells: seq<Color>, ch: Ch): (m: Channel)
    requires |cells| > 0
    ensures exists k :: 0 <= k < |cells| && m == Get(cells[k], ch)
  {
    var vs := Values(cells, ch);
    ValuesAt(cells, ch);
    var m := Median(vs);
    assert m in vs;
    m
  }

  /** MedianFilter.CalculateNewColor: collect the window's channel values in
      three lists, sort each, and take the middle element. */
  method MedianPixel(img: Image, windowSize: nat, x: int, y: int) returns (c: Color)
    requires img.Valid()
    ensures c == MedianColor(img, windowSize, x, y)
  {
    var radius := windowSize / 2;
    var rValues: seq<int> := [];
    var gValues: seq<int> := [];
    var bValues: seq<int> := [];
    var dx := -radius;
    while dx <= radius
      invariant -radius <= dx <= radius + 1
      invariant rValues == ListSoFar(img, radius, x, y, dx, -radius, Red)
      invariant gValues == ListSoFar(img, radius, x, y, dx, -radius, Green)
      invariant bValues == ListSoFar(img, radius, x, y, dx, -radius, Blue)
    {
      var dy := -radius;
      while dy <= radius
        invariant -radius <= dy <= radius + 1
        invariant rValues == ListSoFar(img, radius, x, y, dx, dy, Red)
        invariant gValues == ListSoFar(img, radius, x, y, dx, dy, Green)
        invariant bValues == ListSoFar(img, radius, x, y, dx, dy, Blue)
        {
        var px := Clamp(x + dx, 0, img.width - 1);
        var py := Clamp(y + dy, 0, img.height - 1);
        var color := img.At(px, py);
        ListSoFarAppend(img, radius, x, y, dx, dy);
        rValues := rValues + [color.r];
        gValues := gValues + [color.g];
        bValues := bValues + [color.b];
        dy := dy + 1;
      }
      ListSoFarNewColumn(img, radius, x, y, dx, dy);
      dx := dx + 1;
    }
    MedianOfLists(img, windowSize, x, y, dx, rValues, gValues, bValues);
    rValues := Sort(rValues);
    gValues := Sort(gValues);
    bValues := Sort(bValues);
    var medianIndex := |rValues| / 2;
    c := Color(rValues[medianIndex], gValues[medianIndex], bValues[medianIndex]);
  }

  /** The cells the nested loops have visited when they reach offsets
      (dx, dy): all of columns -r .. dx-1, then rows -r .. dy-1 of column dx. */
  function Visited(img: Image, r: nat, x: int, y: int, dx: int, dy: int): seq<Color>
    requires img.Valid() && 0 <= dx + r && 0 <= dy + r
  {
    WindowCells(img, r, x, y, dx) + ColumnCells(img, r, x, y, dx, dy)
  }

  /** The list of one channel the median loops hold at offsets (dx, dy),
      stepping back one visit at a time. */
  function ListSoFar(img: Image, r: nat, x: int, y: int, dx: int, dy: int, ch: Ch): seq<int>
    requires img.Valid() && 0 <= dx + r && 0 <= dy + r <= 2 * r + 1
    decreases dx + r, dy + r
  {
    if dy + r == 0 then
      (if dx + r == 0 then [] else ListSoFar(img, r, x, y, dx - 1, r + 1, ch))
    else
      ListSoFar(img, r, x, y, dx, dy - 1, ch) + [Get(Sample(img, x + dx, y + dy - 1), ch)]
  }

  /** One step of the inner loop appends the cell at (dx, dy) to each list. */
  lemma ListSoFarAppend(img: Image, r: nat, x: int, y: int, dx: int, dy: int)
    requires img.Valid() && 0 <= dx + r && 0 <= dy + r <= 2 * r
    ensures ListSoFar(img, r, x, y, dx, dy + 1, Red) == ListSoFar(img, r, x, y, dx, dy, Red) + [Sample(img, x + dx, y + dy).r]
    ensures ListSoFar(img, r, x, y, dx, dy + 1, Green) == ListSoFar(img, r, x, y, dx, dy, Green) + [Sample(img, x + dx, y + dy).g]
    ensures ListSoFar(img, r, x, y, dx, dy + 1, Blue) == ListSoFar(img, r, x, y, dx, dy, Blue) + [Sample(img, x + dx, y + dy).b]
  {
  }

  /** A finished column is where the next one starts. */
  lemma ListSoFarNewColumn(img: Image, r: nat, x: int, y: int, dx: int, dy: int)
    requires img.Valid() && 0 <= dx + r && dy == r + 1
    ensures ListSoFar(img, r, x, y, dx + 1, -(r as int), Red) == ListSoFar(img, r, x, y, dx, dy, Red)
    ensures ListSoFar(img, r, x, y, dx + 1, -(r as int), Green) == ListSoFar(img, r, x, y, dx, dy, Green)
    ensures ListSoFar(img, r, x, y, dx + 1, -(r as int), Blue) == ListSoFar(img, r, x, y, dx, dy, Blue)
  {
  }

  /** The loops' list at (dx, dy) is the channel of the cells visited so far. */
  predicate ListIsVisited(img: Image, r: nat, x: int, y: int, dx: int, dy: int, ch: Ch)
    requires img.Valid() && 0 <= dx + r && 0 <= dy + r <= 2 * r + 1
  {
    ListSoFar(img, r, x, y, dx, dy, ch) == Values(Visited(img, r, x, y, dx, dy), ch)
  }

  lemma {:induction false} ListSoFarIsValues(img: Image, r: nat, x: int, y: int, dx: int, dy: int, ch: Ch)
    requires img.Valid() && 0 <= dx + r && 0 <= dy + r <= 2 * r + 1
    ensures ListIsVisited(img, r, x, y, dx, dy, ch)
    decreases dx + r, dy + r
  {
    if dy + r == 0 {
      if dx + r == 0 {
        ListSoFarStart(img, r, x, y, dx, dy, ch);
      } else {
        ListSoFarIsValues(img, r, x, y, dx - 1, r + 1, ch);
        ListSoFarNextColumn(img, r, x, y, dx, dy, ch);
      }
    } else {
      ListSoFarIsValues(img, r, x, y, dx, dy - 1, ch);
      ListSoFarStep(img, r, x, y, dx, dy, ch);
    }
  }

  /** Before the loops the list is empty, as is the visited part. */
  lemma ListSoFarStart(img: Image, r: nat, x: int, y: int, dx: int, dy: int, ch: Ch)
    requires img.Valid() && dx + r == 0 && dy + r == 0
    ensures ListIsVisited(img, r, x, y, dx, dy, ch)
  {
    assert Visited(img, r, x, y, dx, dy) == [];
  }

  /** Moving to the next column keeps the list equal to the visited cells'
      channel. */
  lemma ListSoFarNextColumn(img: Image, r: nat, x: int, y: int, dx: int, dy: int, ch: Ch)
    requires img.Valid() && 0 < dx + r && dy + r == 0
    requires ListIsVisited(img, r, x, y, dx - 1, r + 1, ch)
    ensures ListIsVisited(img, r, x, y, dx, dy, ch)
  {
    VisitedNextColumn(img, r, x, y, dx);
  }

  /** One step of the inner loop keeps the list equal to the visited cells'
      channel. */
  lemma ListSoFarStep(img: Image, r: nat, x: int, y: int, dx: int, dy: int, ch: Ch)
    requires img.Valid() && 0 <= dx + r && 0 < dy + r <= 2 * r + 1
    requires ListIsVisited(img, r, x, y, dx, dy - 1, ch)
    ensures ListIsVisited(img, r, x, y, dx, dy, ch)
  {
    VisitedStep(img, r, x, y, dx, dy);
    ValuesAppend(Visited(img, r, x, y, dx, dy - 1), Sample(img, x + dx, y + dy - 1), ch);
  }

  /** Starting a new column visits nothing new. */
  lemma VisitedNextColumn(img: Image, r: nat, x: int, y: int, dx: int)
    requires img.Valid() && 0 < dx + r
    ensures Visited(img, r, x, y, dx, -(r as int)) == Visited(img, r, x, y, dx - 1, r + 1)
  {
    assert ColumnCells(img, r, x, y, dx, -(r as int)) == [];
  }

  /** One more step of the inner loop visits one more cell. */
  lemma VisitedStep(img: Image, r: nat, x: int, y: int, dx: int, dy: int)
    requires img.Valid() && 0 <= dx + r && 0 < dy + r
    ensures Visited(img, r, x, y, dx, dy) == Visited(img, r, x, y, dx, dy - 1) + [Sample(img, x + dx, y + dy - 1)]
  {
    var w := WindowCells(img, r, x, y, dx);
    var col := ColumnCells(img, r, x, y, dx, dy - 1);
    assert w + (col + [Sample(img, x + dx, y + dy - 1)]) == (w + col) + [Sample(img, x + dx, y + dy - 1)];
  }

  /** After the last column the loops have visited the whole window. */
  lemma VisitedAll(img: Image, r: nat, x: int, y: int)
    requires img.Valid()
    ensures Visited(img, r, x, y, r + 1, -(r as int)) == Window(img, r, x, y)
  {
    assert ColumnCells(img, r, x, y, r + 1, -(r as int)) == [];
  }

  /** Sorting a collected list and taking its middle element gives that
      channel of MedianColor. */
  lemma MedianOfList(img: Image, windowSize: nat, x: int, y: int, ch: Ch)
    requires img.Valid()
    ensures var r := windowSize / 2;
            var vs := ListSoFar(img, r, x, y, r + 1, -r, ch);
            |vs| == |Window(img, r, x, y)| > 0 &&
            Sort(vs)[|vs| / 2] == Get(MedianColor(img, windowSize, x, y), ch)
  {
    var r := windowSize / 2;
    var cells := Window(img, r, x, y);
    VisitedAll(img, r, x, y);
    ListSoFarIsValues(img, r, x, y, r + 1, -r, ch);
    WindowSize(img, r, x, y);
    assert Get(MedianColor(img, windowSize, x, y), ch) == Median(Values(cells, ch));
  }

  /** The three lists the loops collect, sorted, hold MedianColor's
      channels at their middle index. */
  lemma MedianOfLists(img: Image, windowSize: nat, x: int, y: int, dx: int, rs: seq<int>, gs: seq<int>, bs: seq<int>)
    requires img.Valid() && dx == windowSize / 2 + 1
    requires rs == ListSoFar(img, windowSize / 2, x, y, dx, -(windowSize / 2), Red)
    requires gs == ListSoFar(img, windowSize / 2, x, y, dx, -(windowSize / 2), Green)
    requires bs == ListSoFar(img, windowSize / 2, x, y, dx, -(windowSize / 2), Blue)
    ensures |rs| > 0 && |gs| == |rs| && |bs| == |rs|
    ensures Sort(rs)[|rs| / 2] == MedianColor(img, windowSize, x, y).r
    ensures Sort(gs)[|gs| / 2] == MedianColor(img, windowSize, x, y).g
    ensures Sort(bs)[|bs| / 2] == MedianColor(img, windowSize, x, y).b
  {
    MedianOfList(img, windowSize, x, y, Red);
    MedianOfList(img, windowSize, x, y, Green);
    MedianOfList(img, windowSize, x, y, Blue);
  }

  /** The median of a one-colour bitmap is that colour: the filter leaves flat
      regions unchanged. */
  lemma MedianOfConstant(img: Image, c: Color, windowSize: nat, x: int, y: int)
    requires img.Valid() && img.IsConstant(c)
    ensures MedianColor(img, windowSize, x, y) == c
  {
    var r := windowSize / 2;
    var cells := Window(img, r, x, y);
    WindowOfConstant(img, c, r, x, y);
    WindowSize(img, r, x, y);
    ValuesAt(cells, Red);
    ValuesAt(cells, Green);
    ValuesAt(cells, Blue);
    MedianConstant(Values(cells, Red), c.r);
    MedianConstant(Values(cells, Green), c.g);
    MedianConstant(Values(cells, Blue), c.b);
  }

  /** Each channel of the median is the true median of the window: at most
      half of the (2r+1)^2 window values lie below it and at most half above. */
  lemma MedianIsMiddle(img: Image, windowSize: nat, x: int, y: int, ch: Ch)
    requires img.Valid()
    ensures var vs := Values(Window(img, windowSize / 2, x, y), ch);
            var m := Get(MedianColor(img, windowSize, x, y), ch);
            CountBelow(vs, m) <= |vs| / 2 && CountAbove(vs, m) <= |vs| / 2
  {
    var cells := Window(img, windowSize / 2, x, y);
    WindowSize(img, windowSize / 2, x, y);
    MedianSplits(Values(cells, ch));
  }

  // ---------------------------------------------------------------- max

  /** Math.Max. */
  function MathMax(a: int, b: int): int
  {
    if a >= b then a else b
  }

  /** Math.Max of one channel folded over `cells` from 0, left to right, as
      MaxFilter's accumulators compute it. */
  function RunningMax(cells: seq<Color>, ch: Ch): int
  {
    if cells == [] then 0
    else MathMax(RunningMax(cells[..|cells| - 1], ch), Get(cells[|cells| - 1], ch))
  }

  /** Starting the fold from 0 loses nothing, since channels are never
      negative: over a non-empty list the fold is the largest value of the
      channel and is one of the values. */
  lemma {:induction false} RunningMaxIsLargest(cells: seq<Color>, ch: Ch)
    requires |cells| > 0
    ensures exists k :: 0 <= k < |cells| && RunningMax(cells, ch) == Get(cells[k], ch)
    ensures forall k :: 0 <= k < |cells| ==> Get(cells[k], ch) <= RunningMax(cells, ch)
  {
    var init := cells[..|cells| - 1];
    if init != [] {
      RunningMaxIsLargest(init, ch);
      assert forall k :: 0 <= k < |init| ==> cells[k] == init[k];
    }
  }

  /** The largest value of one channel in a non-empty list of cells. */
  function MaxChannel(cells: seq<Color>, ch: Ch): Channel
    requires |cells| > 0
  {
    RunningMaxIsLargest(cells, ch);
    RunningMax(cells, ch)
  }

  /** MaxFilter's colour: per channel, the largest value in the window. */
  function MaxColor(img: Image, windowSize: nat, x: int, y: int): Color
    requires img.Valid()
  {
    var cells := Window(img, windowSize / 2, x, y);
    WindowSize(img, windowSize / 2, x, y);
    Color(MaxChannel(cells, Red), MaxChannel(cells, Green), MaxChannel(cells, Blue))
  }

  /** MaxFilter.CalculateNewColor: fold Math.Max over the window per channel,
      starting from 0. */
  method MaxPixel(img: Image, windowSize: nat, x: int, y: int) returns (c: Color)
    requires img.Valid()
    ensures c == MaxColor(img, windowSize, x, y)
  {
    var radius := windowSize / 2;
    var maxR, maxG, maxB := 0, 0, 0;
    var dx := -radius;
    while dx <= radius
      invariant -radius <= dx <= radius + 1
      invariant maxR == MaxSoFar(img, radius, x, y, dx, -radius, Red)
      invariant maxG == MaxSoFar(img, radius, x, y, dx, -radius, Green)
      invariant maxB == MaxSoFar(img, radius, x, y, dx, -radius, Blue)
    {
      var dy := -radius;
      while dy <= radius
        invariant -radius <= dy <= radius + 1
        invariant maxR == MaxSoFar(img, radius, x, y, dx, dy, Red)
        invariant maxG == MaxSoFar(img, radius, x, y, dx, dy, Green)
        invariant maxB == MaxSoFar(img, radius, x, y, dx, dy, Blue)
      {
        var px := Clamp(x + dx, 0, img.width - 1);
        var py := Clamp(y + dy, 0, img.height - 1);
        var color := img.At(px, py);
        MaxSoFarAppend(img, radius, x, y, dx, dy);
        maxR := MathMax(maxR, color.r);
        maxG := MathMax(maxG, color.g);
        maxB := MathMax(maxB, color.b);
        dy := dy + 1;
      }
      MaxSoFarNewColumn(img, radius, x, y, dx, dy);
      dx := dx + 1;
    }
    MaxOfAccumulators(img, windowSize, x, y, dx, maxR, maxG, maxB);
    c := Color(maxR, maxG, maxB);
  }

  /** The accumulator of one channel the max loops hold at offsets (dx, dy),
      stepping back one visit at a time. */
  function MaxSoFar(img: Image, r: nat, x: int, y: int, dx: int, dy: int, ch: Ch): int
    requires img.Valid() && 0 <= dx + r && 0 <= dy + r <= 2 * r + 1
    decreases dx + r, dy + r
  {
    if dy + r == 0 then
      (if dx + r == 0 then 0 else MaxSoFar(img, r, x, y, dx - 1, r + 1, ch))
    else
      MathMax(MaxSoFar(img, r, x, y, dx, dy - 1, ch), Get(Sample(img, x + dx, y + dy - 1), ch))
  }

  /** One step of the inner loop folds the cell at (dx, dy) into each
      accumulator. */
  lemma MaxSoFarAppend(img: Image, r: nat, x: int, y: int, dx: int, dy: int)
    requires img.Valid() && 0 <= dx + r && 0 <= dy + r <= 2 * r
    ensures MaxSoFar(img, r, x, y, dx, dy + 1, Red) == MathMax(MaxSoFar(img, r, x, y, dx, dy, Red), Sample(img, x + dx, y + dy).r)
    ensures MaxSoFar(img, r, x, y, dx, dy + 1, Green) == MathMax(MaxSoFar(img, r, x, y, dx, dy, Green), Sample(img, x + dx, y + dy).g)
    ensures MaxSoFar(img, r, x, y, dx, dy + 1, Blue) == MathMax(MaxSoFar(img, r, x, y, dx, dy, Blue), Sample(img, x + dx, y + dy).b)
  {
  }

  /** A finished column is where the next one starts. */
  lemma MaxSoFarNewColumn(img: Image, r: nat, x: int, y: int, dx: int, dy: int)
    requires img.Valid() && 0 <= dx + r && dy == r + 1
    ensures MaxSoFar(img, r, x, y, dx + 1, -(r as int), Red) == MaxSoFar(img, r, x, y, dx, dy, Red)
    ensures MaxSoFar(img, r, x, y, dx + 1, -(r as int), Green) == MaxSoFar(img, r, x, y, dx, dy, Green)
    ensures MaxSoFar(img, r, x, y, dx + 1, -(r as int), Blue) == MaxSoFar(img, r, x, y, dx, dy, Blue)
  {
  }

  /** The loops' accumulator at (dx, dy) is the running maximum of the cells
      visited so far. */
  predicate MaxIsVisited(img: Image, r: nat, x: int, y: int, dx: int, dy: int, ch: Ch)
    requires img.Valid() && 0 <= dx + r && 0 <= dy + r <= 2 * r + 1
  {
    MaxSoFar(img, r, x, y, dx, dy, ch) == RunningMax(Visited(img, r, x, y, dx, dy), ch)
  }

  lemma {:induction false} MaxSoFarIsRunningMax(img: Image, r: nat, x: int, y: int, dx: int, dy: int, ch: Ch)
    requires img.Valid() && 0 <= dx + r && 0 <= dy + r <= 2 * r + 1
    ensures MaxIsVisited(img, r, x, y, dx, dy, ch)
    decreases dx + r, dy + r
  {
    if dy + r == 0 {
      if dx + r == 0 {
        MaxSoFarStart(img, r, x, y, dx, dy, ch);
      } else {
        MaxSoFarIsRunningMax(img, r, x, y, dx - 1, r + 1, ch);
        MaxSoFarNextColumn(img, r, x, y, dx, dy, ch);
      }
    } else {
      MaxSoFarIsRunningMax(img, r, x, y, dx, dy - 1, ch);
      MaxSoFarStep(img, r, x, y, dx, dy, ch);
    }
  }

  lemma MaxSoFarStart(img: Image, r: nat, x: int, y: int, dx: int, dy: int, ch: Ch)
    requires img.Valid() && dx + r == 0 && dy + r == 0
    ensures MaxIsVisited(img, r, x, y, dx, dy, ch)
  {
    assert Visited(img, r, x, y, dx, dy) == [];
  }

  lemma MaxSoFarNextColumn(img: Image, r: nat, x: int, y: int, dx: int, dy: int, ch: Ch)
    requires img.Valid() && 0 < dx + r && dy + r == 0
    requires MaxIsVisited(img, r, x, y, dx - 1, r + 1, ch)
    ensures MaxIsVisited(img, r, x, y, dx, dy, ch)
  {
    VisitedNextColumn(img, r, x, y, dx);
  }

  lemma MaxSoFarStep(img: Image, r: nat, x: int, y: int, dx: int, dy: int, ch: Ch)
    requires img.Valid() && 0 <= dx + r && 0 < dy + r <= 2 * r + 1
    requires MaxIsVisited(img, r, x, y, dx, dy - 1, ch)
    ensures MaxIsVisited(img, r, x, y, dx, dy, ch)
  {
    var cells := Visited(img, r, x, y, dx, dy - 1);
    var c := Sample(img, x + dx, y + dy - 1);
    VisitedStep(img, r, x, y, dx, dy);
    assert (cells + [c])[..|cells|] == cells;
  }

  /** Folding the whole window gives that channel of MaxColor. */
  lemma MaxOfWindow(img: Image, windowSize: nat, x: int, y: int, ch: Ch)
    requires img.Valid()
    ensures var r := windowSize / 2;
            MaxSoFar(img, r, x, y, r + 1, -r, ch) == Get(MaxColor(img, windowSize, x, y), ch)
  {
    var r := windowSize / 2;
    VisitedAll(img, r, x, y);
    WindowSize(img, r, x, y);
    MaxSoFarIsRunningMax(img, r, x, y, r + 1, -r, ch);
  }

  /** Once the whole window is folded, the accumulators are MaxColor's channels. */
  lemma MaxOfAccumulators(img: Image, windowSize: nat, x: int, y: int, dx: int, mr: int, mg: int, mb: int)
    requires img.Valid() && dx == windowSize / 2 + 1
    requires mr == MaxSoFar(img, windowSize / 2, x, y, dx, -(windowSize / 2), Red)
    requires mg == MaxSoFar(img, windowSize / 2, x, y, dx, -(windowSize / 2), Green)
    requires mb == MaxSoFar(img, windowSize / 2, x, y, dx, -(windowSize / 2), Blue)
    ensures mr == MaxColor(img, windowSize, x, y).r
    ensures mg == MaxColor(img, windowSize, x, y).g
    ensures mb == MaxColor(img, windowSize, x, y).b
  {
    MaxOfWindow(img, windowSize, x, y, Red);
    MaxOfWindow(img, windowSize, x, y, Green);
    MaxOfWindow(img, windowSize, x, y, Blue);
  }

  /** Each channel of MaxColor is the largest value of that channel in the
      window, and is attained by one of the window's cells. */
  lemma MaxIsWindowMaximum(img: Image, windowSize: nat, x: int, y: int, ch: Ch)
    requires img.Valid()
    ensures var cells := Window(img, windowSize / 2, x, y);
            var m := Get(MaxColor(img, windowSize, x, y), ch);
            (exists k :: 0 <= k < |cells| && m == Get(cells[k], ch)) &&
            (forall k :: 0 <= k < |cells| ==> Get(cells[k], ch) <= m)
  {
    var cells := Window(img, windowSize / 2, x, y);
    WindowSize(img, windowSize / 2, x, y);
    RunningMaxIsLargest(cells, ch);
  }

  /** The result of MaxFilter is at least the source pixel in every channel: the
      window always contains its centre. */
  lemma MaxDominatesCentre(img: Image, windowSize: nat, x: int, y: int, ch: Ch)
    requires img.Valid() && img.InBounds(x, y)
    ensures Get(MaxColor(img, windowSize, x, y), ch) >= Get(img.At(x, y), ch)
  {
    var r := windowSize / 2;
    WindowHasCell(img, r, x, y, 0, 0);
    var cells := Window(img, r, x, y);
    assert x + 0 == x && y + 0 == y;
    var k :| 0 <= k < |cells| && cells[k] == Sample(img, x, y);
    MaxIsWindowMaximum(img, windowSize, x, y, ch);
  }

  /** The maximum over a one-colour bitmap is that colour. */
  lemma MaxOfConstant(img: Image, c: Color, windowSize: nat, x: int, y: int)
    requires img.Valid() && img.IsConstant(c)
    ensures MaxColor(img, windowSize, x, y) == c
  {
    var r := windowSize / 2;
    WindowOfConstant(img, c, r, x, y);
    MaxIsWindowMaximum(img, windowSize, x, y, Red);
    MaxIsWindowMaximum(img, windowSize, x, y, Green);
    MaxIsWindowMaximum(img, windowSize, x, y, Blue);
  }
}
