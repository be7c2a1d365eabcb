/** How samples become points and cubics become polylines: scales, straight pieces, step lengths and visible samples. */
module CurvePlot {
  import opened Wrappers
  import opened Reals
  import opened CurveGeometry
  import opened CurveBuilder
  import Bezier

  // --- Scales -----------------------------------------------------------------------

  /** A ratio is plotted as it is, and one out of range at the limit. */
  lemma RawIsTheValue(samples: seq<Sample>, view: View, i: nat, value: real)
    requires i < |samples|
    requires (view.metric.Cpu? && samples[i].cpu == Some(value))
      || (view.metric.Memory? && samples[i].memory == Some(value))
    ensures Present(samples, view, i)
    ensures 0.0 <= value <= 1.0 ==> Raw(samples, view, i) == value
    ensures value < 0.0 ==> Raw(samples, view, i) == 0.0
    ensures value > 1.0 ==> Raw(samples, view, i) == 1.0
  {
  }

  /** Gaps of the one metric do not touch the other. */
  lemma MetricsAreIndependent(samples: seq<Sample>, view: View, i: nat)
    requires i < |samples|
    ensures view.metric.Cpu? ==> (Present(samples, view, i) <==> samples[i].cpu.Some?)
    ensures view.metric.Memory? ==> (Present(samples, view, i) <==> samples[i].memory.Some?)
  {
  }

  /** The first sample after a gap is plotted at its own value: full below the headroom, empty at the bottom. */
  lemma FirstIsPlottedAsItIs(samples: seq<Sample>, view: View, i: nat)
    requires i < |samples| && Present(samples, view, i) && (i == 0 || !Present(samples, view, i - 1))
    requires view.height >= HEADROOM
    ensures var y := PlotPoint(samples, view, i).point.y;
      && (Raw(samples, view, i) == 1.0 ==> y == HEADROOM) && (Raw(samples, view, i) == 0.0 ==> y == view.height)
      && (Raw(samples, view, i) == 0.5 ==> y == (HEADROOM + view.height) / 2.0)
  {
  }

  lemma ScaledDifference(h: real, a: real, b: real)
    ensures h * (1.0 - a) - h * (1.0 - b) == h * (b - a)
  {
  }

  /** Heights are in proportion to the filtered ratios, upwards. */
  lemma HeightsAreProportional(view: View, a: real, b: real)
    ensures Ordinate(view, a) - Ordinate(view, b) == view.UsableHeight() * (b - a)
    ensures view.height >= HEADROOM ==> view.UsableHeight() == view.height - HEADROOM
  {
    ScaledDifference(view.UsableHeight(), a, b);
  }

  /** The window's 60 seconds fill the width: its start is at 0, its end at the right edge, its middle in the middle. */
  lemma WindowFillsTheWidth(view: View, elapsed: int)
    ensures elapsed as real == view.windowEnd ==> Abscissa(view, elapsed) == view.width
    ensures elapsed as real == view.windowEnd - 60000.0 ==> Abscissa(view, elapsed) == 0.0
    ensures elapsed as real == view.windowEnd - 30000.0 ==> Abscissa(view, elapsed) == view.width / 2.0
  {
  }

  // --- Straight pieces ----------------------------------------------------------------

  /** Between repeated or decreasing timestamps the curve is the straight line between the two points. */
  lemma FallbackIsStraight(points: seq<TimedPoint>, i: nat, t: real)
    requires i + 1 < |points| && points[i + 1].time <= points[i].time
    ensures var a, b := points[i].point, points[i + 1].point;
      CubicPoint(SegmentCubic(points, i), t) == Point(a.x + (b.x - a.x) * t, a.y + (b.y - a.y) * t)
  {
    hide Tangent, Bezier.Value;
    var a, b := points[i].point, points[i + 1].point;
    var c := SegmentCubic(points, i);
    Bezier.ThirdsAreLinear(a.x, c.control1.x, c.control2.x, b.x, t);
    Bezier.ThirdsAreLinear(a.y, c.control1.y, c.control2.y, b.y, t);
  }

  // --- Steps ----------------------------------------------------------------------------

  /** A cubic gets as many steps as it is pixels wide, rounded up, at least one and at most 64. */
  lemma AboutOneStepPerPixel(c: CubicSegment)
    ensures var n, width := Subdivisions(c), Abs(c.end.x - c.start.x);
      && (width <= 64.0 ==> width <= n as real) && (n > 1 ==> (n - 1) as real < width) && (width > 64.0 ==> n == 64)
  {
    CeilIs(Abs(c.end.x - c.start.x) / PIXELS_PER_POINT);
  }

  lemma CeilIs(a: real)
    ensures a <= Ceil(a) as real < a + 1.0
  {
  }

  lemma LinearAbscissa(c: CubicSegment, k: int, t: real)
    requires Bezier.AtThirds(c.start.x, c.control1.x, c.control2.x, c.end.x) && t == k as real / Subdivisions(c) as real
    ensures TessellationPoint(c, k).x == c.start.x + (c.end.x - c.start.x) * t
  {
    hide Bezier.Value, Subdivisions;
    Bezier.ThirdsAreLinear(c.start.x, c.control1.x, c.control2.x, c.end.x, t);
  }

  /** On a cubic whose abscissa is linear the steps are equally wide, and no wider than a pixel unless there are 64. */
  lemma StepsAreEven(c: CubicSegment, k: int)
    requires Bezier.AtThirds(c.start.x, c.control1.x, c.control2.x, c.end.x) && 0 <= k < Subdivisions(c)
    ensures var n := Subdivisions(c);
      var step := TessellationPoint(c, k + 1).x - TessellationPoint(c, k).x;
      step * n as real == c.end.x - c.start.x && (n < 64 ==> Abs(step) <= 1.0)
  {
    hide *;
    var n, d := Subdivisions(c), c.end.x - c.start.x;
    var t, u := k as real / n as real, (k + 1) as real / n as real;
    LinearAbscissa(c, k, t);
    LinearAbscissa(c, k + 1, u);
    EqualSteps(c.start.x, d, k as real, n as real, t, u);
    AboutOneStepPerPixel(c);
    ShortStep(TessellationPoint(c, k + 1).x - TessellationPoint(c, k).x, n, d);
  }

  lemma EqualSteps(start: real, d: real, k: real, n: real, t: real, u: real)
    requires n > 0.0 && t == k / n && u == (k + 1.0) / n
    ensures ((start + d * u) - (start + d * t)) * n == d
  {
    assert t * n == k && u * n == k + 1.0;
    assert (u - t) * n == 1.0;
    ScaledOne(d, u - t, n);
  }

  lemma ScaledOne(d: real, f: real, n: real)
    requires f * n == 1.0
    ensures d * f * n == d
  {
  }

  lemma ShortStep(step: real, n: int, d: real)
    requires n >= 1 && step * n as real == d && (n < 64 ==> Abs(d) <= n as real)
    ensures n < 64 ==> Abs(step) <= 1.0
  {
    if n < 64 {
      AtMostOne(step, n as real, d);
      AtMostOne(-step, n as real, -d);
    }
  }

  lemma AtMostOne(step: real, m: real, d: real)
    requires m > 0.0 && step * m == d && d <= m
    ensures step <= 1.0
  {
    MoreThanOne(step, m);
  }

  lemma MoreThanOne(step: real, m: real)
    requires m > 0.0
    ensures step > 1.0 ==> step * m > m
  {
    var more := step - 1.0;
    assert step * m == more * m + m;
  }

  // --- The samples of a run ----------------------------------------------------------------

  /** The first point of an ordered run from the cutoff on. */
  function FirstInside(points: seq<TimedPoint>, cutoff: real): (n: nat)
    ensures n <= |points|
    ensures forall k :: 0 <= k < n ==> points[k].time < cutoff
    ensures n < |points| ==> points[n].time >= cutoff
  {
    if points == [] || points[0].time >= cutoff then 0 else 1 + FirstInside(points[1..], cutoff)
  }

  /** A run's samples are its points from the cutoff on, in order; all of them when times are ordered. */
  lemma {:induction false} VisibleSamplesAreTheLast(points: seq<TimedPoint>, cutoff: real)
    requires forall i, j :: 0 <= i <= j < |points| ==> points[i].time <= points[j].time
    ensures var first, s := FirstInside(points, cutoff), VisibleSamples(points, cutoff);
      && |s| == |points| - first && forall k :: 0 <= k < |s| ==> s[k] == points[first + k].point
  {
    if points != [] {
      var n := |points| - 1;
      var front := points[..n];
      VisibleSamplesAreTheLast(front, cutoff);
      SameFirst(points, cutoff, n);
    }
  }

  lemma {:induction false} FirstIs(points: seq<TimedPoint>, cutoff: real, n: nat)
    requires n <= |points| && (forall k :: 0 <= k < n ==> points[k].time < cutoff)
    requires n < |points| ==> points[n].time >= cutoff
    ensures FirstInside(points, cutoff) == n
  {
    if n > 0 {
      FirstIs(points[1..], cutoff, n - 1);
    }
  }

  lemma SameFirst(points: seq<TimedPoint>, cutoff: real, n: nat)
    requires forall i, j :: 0 <= i <= j < |points| ==> points[i].time <= points[j].time
    requires n + 1 == |points|
    ensures var f := FirstInside(points[..n], cutoff);
      FirstInside(points, cutoff) == if f < n || points[n].time >= cutoff then f else n + 1
  {
    var f := FirstInside(points[..n], cutoff);
    FirstIs(points, cutoff, if f < n || points[n].time >= cutoff then f else n + 1);
  }

  /** The run of the present samples from a up to n, which a gap or an end of the history bounds on either side. */
  ghost predicate IsStretch(samples: seq<Sample>, view: View, a: nat, n: nat) {
    && AllPresent(samples, view, a, n)
    && (a == 0 || !Present(samples, view, a - 1)) && (n == |samples| || !Present(samples, view, n))
  }

  ghost predicate RunOf(run: CurveRun, samples: seq<Sample>, view: View, a: nat, n: nat) {
    && IsStretch(samples, view, a, n)
    && run in CompletedRuns(RunPoints(samples, view, a, n), view.Cutoff())
  }

  lemma {:induction false} StretchBefore(samples: seq<Sample>, view: View, run: CurveRun, m: nat)
    returns (a: nat, n: nat)
    requires m <= |samples| && run in RunsBefore(samples, view, m)
    ensures RunOf(run, samples, view, a, n)
    decreases m
  {
    hide CompletedRuns, RunPoints, PlotPoint;
    if run in RunsBefore(samples, view, m - 1) {
      a, n := StretchBefore(samples, view, run, m - 1);
    } else {
      a, n := GapStart(samples, view, m - 1), m - 1;
    }
  }

  lemma StretchOf(samples: seq<Sample>, view: View, run: CurveRun) returns (a: nat, n: nat)
    requires run in Runs(samples, view)
    ensures RunOf(run, samples, view, a, n)
  {
    hide CompletedRuns, RunPoints, PlotPoint, RunsBefore;
    n := |samples|;
    if run in RunsBefore(samples, view, n) {
      a, n := StretchBefore(samples, view, run, n);
    } else {
      a := GapStart(samples, view, n);
    }
  }

  lemma RunSamples(points: seq<TimedPoint>, cutoff: real, run: CurveRun)
    requires run in CompletedRuns(points, cutoff)
    ensures run.samples == VisibleSamples(points, cutoff)
  {
    hide RunCubics, VisibleSamples, Tessellate;
  }

  /** The samples of a run are the plotted samples of its stretch from the window's start on, in order. */
  lemma RunShowsItsSamples(samples: seq<Sample>, view: View, run: CurveRun) returns (a: nat, n: nat, first: nat)
    requires OrderedTimes(samples) && run in Runs(samples, view)
    ensures IsStretch(samples, view, a, n) && a <= first <= n && |run.samples| == n - first
    ensures forall k :: a <= k < n ==> (k < first <==> samples[k].elapsedMilliseconds as real < view.Cutoff())
    ensures forall k :: first <= k < n ==> run.samples[k - first] == PlotPoint(samples, view, k).point
  {
    hide Runs, Filtered, Abscissa, Ordinate, CompletedRuns, VisibleSamples, FirstInside;
    a, n := StretchOf(samples, view, run);
    var points := RunPoints(samples, view, a, n);
    RunSamples(points, view.Cutoff(), run);
    VisibleSamplesAreTheLast(points, view.Cutoff());
    first := a + FirstInside(points, view.Cutoff());
    forall k | a <= k < n ensures k < first <==> samples[k].elapsedMilliseconds as real < view.Cutoff() {
      assert points[k - a].time == samples[k].elapsedMilliseconds as real;
      assert k >= first ==> points[first - a].time <= points[k - a].time;
    }
    forall k | first <= k < n ensures run.samples[k - first] == PlotPoint(samples, view, k).point {
      assert points[k - a] == PlotPoint(samples, view, k);
    }
  }
}
