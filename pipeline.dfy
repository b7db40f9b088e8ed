/** The background work behind the menu: one filter over the whole 0..100
    progress range, or the three-stage "glowing edges" chain (median 3x3,
    Sobel, max 3x3) that splits the range 0/33, 33/33 and 66/34 and stops at
    the first cancellation. */
module Pipeline {
  import opened Imaging
  import opened Scan

  /** The glowing-edges result: median, then Sobel, then max. */
  function GlowingEdgesImage(src: Image): (out: Image)
    requires src.Valid()
    ensures out.Valid() && out.width == src.width && out.height == src.height
  {
    Apply(Max(3), Apply(SobelFilter, Apply(Median(3), src)))
  }

  /** What the three stages report, in order, when none is cancelled. */
  function GlowingProgress(width: nat): (s: seq<int>)
    requires width > 0
    ensures |s| == 3 * width
  {
    ProgressSeries(0, 33, width) + ProgressSeries(33, 33, width) + ProgressSeries(66, 34, width)
  }

  /** The chained progress is one bar: it starts at 0, reaches 33 and 66
      when the second and third stages start, never goes back, and stays
      inside 0..99. */
  lemma GlowingProgressIsOneBar(width: nat)
    requires width > 0
    ensures var s := GlowingProgress(width);
            s[0] == 0 && s[width] == 33 && s[2 * width] == 66 &&
            (forall i :: 0 <= i < |s| ==> 0 <= s[i] < 100) &&
            (forall i, j :: 0 <= i <= j < |s| ==> s[i] <= s[j])
  {
    var s := GlowingProgress(width);
    forall i | 0 <= i < |s|
      ensures 0 <= s[i] < 100
    {
      StageValue(width, i);
    }
    forall i, j | 0 <= i <= j < |s|
      ensures s[i] <= s[j]
    {
      StageValue(width, i);
      StageValue(width, j);
      if Stage(width, i) == Stage(width, j) {
        ProgressMonotone(StageStart(Stage(width, i)), StageScale(Stage(width, i)), width,
                         Column(width, i), Column(width, j));
      }
    }
    StageValue(width, 0);
    StageValue(width, width);
    StageValue(width, 2 * width);
  }

  /** Which of the three scans makes report i of the chain ... */
  function Stage(width: nat, i: nat): (k: nat)
    ensures k < 3
  {
    if i < width then 0 else if i < 2 * width then 1 else 2
  }

  /** ... and at which column of that scan. */
  function Column(width: nat, i: nat): int
  {
    if i < width then i else if i < 2 * width then i - width else i - 2 * width
  }

  /** Where stage `k` of the chain starts on the bar, and how much of it
      it covers. */
  function StageStart(k: int): int
  {
    if k <= 0 then 0 else if k == 1 then 33 else if k == 2 then 66 else 100
  }

  function StageScale(k: int): nat
  {
    if k <= 0 then 33 else if k == 1 then 33 else 34
  }

  /** Report i of the chain is the report of its stage's scan at its column,
      which lies inside that stage's share of the bar. */
  lemma StageValue(width: nat, i: nat)
    requires width > 0 && i < 3 * width
    ensures var k := Stage(width, i);
            0 <= Column(width, i) < width &&
            GlowingProgress(width)[i] == Progress(StageStart(k), StageScale(k), width, Column(width, i)) &&
            StageStart(k) <= GlowingProgress(width)[i] < StageStart(k + 1) &&
            (Column(width, i) == 0 ==> GlowingProgress(width)[i] == StageStart(k))
  {
    var k := Stage(width, i);
    var s1, s2, s3 := ProgressSeries(0, 33, width), ProgressSeries(33, 33, width), ProgressSeries(66, 34, width);
    assert GlowingProgress(width) == s1 + s2 + s3;
    ProgressBounds(StageStart(k), StageScale(k), width, Column(width, i));
  }

  /** A one-colour picture has no edges: glowing edges turns it black. */
  lemma GlowingEdgesOfFlat(w: nat, h: nat, c: Color)
    requires w >= 1 && h >= 1
    ensures GlowingEdgesImage(Filled(w, h, c)) == Filled(w, h, Black)
  {
    MedianKeepsFlat(3, w, h, c);
    FlatHasNoEdges(SobelFilter, w, h, c);
    MaxKeepsFlat(3, w, h, Black);
  }

  /** One scan followed by the form's own read of CancellationPending, the
      step each branch of the background work repeats: the filtered picture,
      or None when that read sees the request. That happens when the scan
      itself stopped (and returned null), and also when the request came in
      after the scan's last read, while the last column was being filled. */
  method ScanAndCheck(filter: Filter, src: Image, worker: Worker, offset: int, scale: nat)
      returns (out: Option<Image>)
    requires filter.Valid() && src.Valid()
    modifies worker
    ensures worker.reports == old(worker.reports)
              + ProgressSeries(offset, scale, src.width)[..ReportCount(worker.cancelAfter, old(worker.polls), src.width)]
    ensures worker.polls == old(worker.polls) + ReportCount(worker.cancelAfter, old(worker.polls), src.width) + 1
    ensures out == if Cancels(worker.cancelAfter, old(worker.polls), src.width + 1) then None else Some(Apply(filter, src))
    ensures out.Some? ==> worker.reports == old(worker.reports) + ProgressSeries(offset, scale, src.width)
                          && worker.polls == old(worker.polls) + src.width + 1
  {
    var bitmap := ProcessImage(filter, src, worker, offset, scale);
    CheckAfterScan(worker.cancelAfter, old(worker.polls), src.width);
    var pending := worker.CancellationPending();
    if pending {
      out := None;
    } else {
      out := Some(Snapshot(bitmap));
    }
  }

  /** The read after a scan sees the request exactly when it came before
      the scan's end or before that read; a scan that stopped leaves it
      pending. */
  lemma CheckAfterScan(cancelAfter: Option<nat>, before: nat, width: nat)
    requires width > 0
    ensures Cancels(cancelAfter, before + ReportCount(cancelAfter, before, width), 1)
        <==> Cancels(cancelAfter, before, width + 1)
    ensures Cancels(cancelAfter, before, width) ==> Cancels(cancelAfter, before, width + 1)
  {
  }

  /** The form's picture (_image, null until a file is opened), which the
      background work replaces when it finishes uncancelled. */
  class Editor {
    var image: Option<Image>

    /** A bitmap System.Drawing hands out always has both dimensions. */
    predicate Valid()
      reads this
    {
      image.Some? ==> image.value.Valid()
    }

    constructor(image: Option<Image>)
      requires image.Some? ==> image.value.Valid()
      ensures this.image == image && Valid()
    {
      this.image := image;
    }

    /** The single-filter branch: the filter over the whole bar, and the
      picture replaced only when the form's read after the scan does not
      see cancellation. With no picture, ProcessImage throws on its first
      line, before any report; the worker hands the exception to the form
      (`failed`) and nothing changes. */
    method RunFilter(filter: Filter, worker: Worker) returns (failed: bool)
      requires filter.Valid() && Valid()
      modifies this, worker
      ensures Valid()
      ensures failed <==> old(image).None?
      ensures failed ==> image == old(image) && worker.reports == old(worker.reports) && worker.polls == old(worker.polls)
      ensures !failed ==>
                var w, before := old(image).value.width, old(worker.polls);
                worker.reports == old(worker.reports)
                  + ProgressSeries(0, 100, w)[..ReportCount(worker.cancelAfter, before, w)] &&
                worker.polls == before + ReportCount(worker.cancelAfter, before, w) + 1 &&
                image == if Cancels(worker.cancelAfter, before, w + 1) then old(image)
                         else Some(Apply(filter, old(image).value))
    {
      failed := image.None?;
      if failed {
        return;
      }
      var newImg := ScanAndCheck(filter, image.value, worker, 0, 100);
      if newImg.Some? {
        image := newImg;
      }
    }

    /** The glowing-edges branch: three scans over the one bar, each followed
      by the form's read of CancellationPending before the next starts.
      With no picture the first scan throws, as in RunFilter. */
    method GlowingEdges(sourceImage: Option<Image>, worker: Worker) returns (failed: bool)
      requires Valid() && (sourceImage.Some? ==> sourceImage.value.Valid())
      modifies this, worker
      ensures Valid()
      ensures failed <==> sourceImage.None?
      ensures failed ==> image == old(image) && worker.reports == old(worker.reports) && worker.polls == old(worker.polls)
      ensures !failed ==> ChainOutcome(worker.cancelAfter, old(worker.polls), sourceImage.value,
                                       old(worker.reports), worker.reports, worker.polls, old(image), image)
    {
      failed := sourceImage.None?;
      if failed {
        return;
      }
      var src := sourceImage.value;
      ghost var before, w, ca := worker.polls, src.width, worker.cancelAfter;

      ghost var reports0, image0 := worker.reports, image;

      var medianImage := ScanAndCheck(Median(3), src, worker, 0, 33);
      if medianImage.None? {
        FirstStageStops(ca, before, src, reports0, worker.reports, worker.polls, image0);
        return;
      }

      var edgeImage := ScanAndCheck(SobelFilter, medianImage.value, worker, 33, 33);
      if edgeImage.None? {
        SecondStageStops(ca, before, src, reports0, worker.reports, worker.polls, image0);
        return;
      }

      var glowingEdges := ScanAndCheck(Max(3), edgeImage.value, worker, 66, 34);
      if glowingEdges.Some? {
        image := glowingEdges;
      }
      ThirdStage(ca, before, src, reports0, worker.reports, worker.polls, image0, image);
    }
  }

  /** What the chain started after `before` reads leaves behind: the reports
      of the scans it ran, the reads they and the form made, and the picture,
      replaced by the glowing-edges image exactly when no read saw the
      request. */
  ghost predicate ChainOutcome(cancelAfter: Option<nat>, before: nat, src: Image,
                               reports0: seq<int>, reports: seq<int>, polls: nat,
                               image0: Option<Image>, image: Option<Image>)
    requires src.Valid()
  {
    var w := src.width;
    reports == reports0 + GlowingProgress(w)[..ChainReportCount(cancelAfter, before, w)] &&
    polls == before + ChainReportCount(cancelAfter, before, w) + StagesRun(cancelAfter, before, w) &&
    image == if Cancels(cancelAfter, before, 3 * (w + 1)) then image0 else Some(GlowingEdgesImage(src))
  }

  /** How many of the chain's three scans start: the next one starts only
      when the read after the previous one sees no cancellation. */
  function StagesRun(cancelAfter: Option<nat>, before: nat, width: nat): (k: nat)
    ensures 1 <= k <= 3
    ensures k < 3 <==> Cancels(cancelAfter, before, 2 * (width + 1))
  {
    if Cancels(cancelAfter, before, width + 1) then 1
    else if Cancels(cancelAfter, before + width + 1, width + 1) then 2
    else 3
  }

  /** How many progress reports the chain makes: those of the scans that
      ran to the end, then those of the last scan started. */
  function ChainReportCount(cancelAfter: Option<nat>, before: nat, width: nat): (n: nat)
    requires width > 0
    ensures n <= 3 * width
    ensures !Cancels(cancelAfter, before, 3 * (width + 1)) ==> n == 3 * width
  {
    if Cancels(cancelAfter, before, width + 1) then
      ReportCount(cancelAfter, before, width)
    else if Cancels(cancelAfter, before + width + 1, width + 1) then
      width + ReportCount(cancelAfter, before + width + 1, width)
    else
      2 * width + ReportCount(cancelAfter, before + 2 * (width + 1), width)
  }

  /** The chain stopped after its first scan. */
  lemma FirstStageStops(cancelAfter: Option<nat>, before: nat, src: Image,
                        reports0: seq<int>, reports: seq<int>, polls: nat, image0: Option<Image>)
    requires src.Valid() && Cancels(cancelAfter, before, src.width + 1)
    requires reports == reports0 + ProgressSeries(0, 33, src.width)[..ReportCount(cancelAfter, before, src.width)]
    requires polls == before + ReportCount(cancelAfter, before, src.width) + 1
    ensures ChainOutcome(cancelAfter, before, src, reports0, reports, polls, image0, image0)
  {
    var w := src.width;
    var s1, s2, s3 := ProgressSeries(0, 33, w), ProgressSeries(33, 33, w), ProgressSeries(66, 34, w);
    var n := ReportCount(cancelAfter, before, w);
    assert (s1 + s2 + s3)[..n] == s1[..n];
  }

  /** The chain stopped after its second scan. */
  lemma SecondStageStops(cancelAfter: Option<nat>, before: nat, src: Image,
                         reports0: seq<int>, reports: seq<int>, polls: nat, image0: Option<Image>)
    requires src.Valid() && !Cancels(cancelAfter, before, src.width + 1)
    requires Cancels(cancelAfter, before + src.width + 1, src.width + 1)
    requires reports == reports0 + ProgressSeries(0, 33, src.width)
               + ProgressSeries(33, 33, src.width)[..ReportCount(cancelAfter, before + src.width + 1, src.width)]
    requires polls == before + src.width + 1 + ReportCount(cancelAfter, before + src.width + 1, src.width) + 1
    ensures ChainOutcome(cancelAfter, before, src, reports0, reports, polls, image0, image0)
  {
    var w := src.width;
    var s1, s2, s3 := ProgressSeries(0, 33, w), ProgressSeries(33, 33, w), ProgressSeries(66, 34, w);
    var n := ReportCount(cancelAfter, before + w + 1, w);
    assert (s1 + s2 + s3)[..w + n] == s1 + s2[..n];
  }

  /** The chain reached its third scan: it is cancelled exactly when the
      read after that scan sees the request, and otherwise the picture is
      median, then Sobel, then max of the source. */
  lemma ThirdStage(cancelAfter: Option<nat>, before: nat, src: Image,
                   reports0: seq<int>, reports: seq<int>, polls: nat, image0: Option<Image>, image: Option<Image>)
    requires src.Valid() && !Cancels(cancelAfter, before, src.width + 1)
    requires !Cancels(cancelAfter, before + src.width + 1, src.width + 1)
    requires reports == reports0 + ProgressSeries(0, 33, src.width) + ProgressSeries(33, 33, src.width)
               + ProgressSeries(66, 34, src.width)[..ReportCount(cancelAfter, before + 2 * (src.width + 1), src.width)]
    requires polls == before + 2 * (src.width + 1) + ReportCount(cancelAfter, before + 2 * (src.width + 1), src.width) + 1
    requires image == if Cancels(cancelAfter, before + 2 * (src.width + 1), src.width + 1) then image0
                      else Some(Apply(Max(3), Apply(SobelFilter, Apply(Median(3), src))))
    ensures ChainOutcome(cancelAfter, before, src, reports0, reports, polls, image0, image)
  {
    var w := src.width;
    var s1, s2, s3 := ProgressSeries(0, 33, w), ProgressSeries(33, 33, w), ProgressSeries(66, 34, w);
    var n := ReportCount(cancelAfter, before + 2 * (w + 1), w);
    assert StagesRun(cancelAfter, before, w) == 3;
    assert ChainReportCount(cancelAfter, before, w) == 2 * w + n;
    assert Cancels(cancelAfter, before + 2 * (w + 1), w + 1) == Cancels(cancelAfter, before, 3 * (w + 1));
    assert (s1 + s2 + s3)[..2 * w + n] == s1 + s2 + s3[..n];
  }
}
