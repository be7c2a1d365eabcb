/** What every MetricGeometry built from any samples satisfies. */
module CurveTheorems {
  import opened Wrappers
  import opened Reals
  import opened CurveGeometry
  import opened CurveShape
  import opened CurveBuilder

  // --- The filter stays in the hull of its raw inputs -----------------------

  lemma MixBetween(a: real, b: real, alpha: real, low: real, high: real)
    requires 0.0 < alpha < 1.0 && low <= a <= high && low <= b <= high
    ensures low <= a + (b - a) * alpha <= high
  {
    var left := 1.0 - alpha;
    if a <= b {
      var rise := b - a;
      ProductNonNegative(rise, alpha);
      ProductNonNegative(rise, left);
      assert rise * left == rise - rise * alpha;
    } else {
      var fall := a - b;
      ProductNonNegative(fall, alpha);
      ProductNonNegative(fall, left);
      assert fall * left == fall - fall * alpha;
      assert (b - a) * alpha == -(fall * alpha);
    }
  }

  /** One filter step lands between the previous filtered value and the new raw one. */
  lemma FilterStepBetween(raw: real, elapsed: int, metric: Metric, state: Option<FilterState>, decay: Decay,
                          low: real, high: real)
    requires low <= raw <= high
    requires state.Some? ==> low <= state.value.filtered <= high
    ensures low <= FilterRatio(raw, elapsed, metric, state, decay).filtered <= high
  {
    hide TimeConstant;
    if state.Some? && elapsed > state.value.elapsedMilliseconds {
      var seconds := (elapsed - state.value.elapsedMilliseconds) as real / 1000.0;
      var constant := TimeConstant(metric, Abs(raw - state.value.raw));
      assert seconds / constant > 0.0;
      MixBetween(state.value.filtered, raw, 1.0 - decay(seconds / constant), low, high);
    }
  }

  /** Every filtered ratio lies in the hull of the clamped raw values since the last gap. */
  lemma {:induction false} FilteredInHull(samples: seq<Sample>, view: View, a: nat, i: nat, low: real, high: real)
    requires a <= i < |samples| && AllPresent(samples, view, a, i + 1)
    requires a == 0 || !Present(samples, view, a - 1)
    requires forall k :: a <= k <= i ==> low <= Raw(samples, view, k) <= high
    ensures low <= Filtered(samples, view, i).filtered <= high
  {
    hide FilterRatio, Raw;
    if a < i {
      FilteredInHull(samples, view, a, i - 1, low, high);
    }
    var elapsed := samples[i].elapsedMilliseconds;
    PlotStep(samples, view, i);
    FilterStepBetween(
      Raw(samples, view, i), elapsed, view.metric, StateBefore(samples, view, i), view.decay, low, high);
  }

  lemma FilteredIsRatio(samples: seq<Sample>, view: View, i: nat)
    requires i < |samples| && Present(samples, view, i)
    ensures 0.0 <= Filtered(samples, view, i).filtered <= 1.0
  {
    hide Filtered;
    FilteredInHull(samples, view, GapStart(samples, view, i + 1), i, 0.0, 1.0);
  }

  lemma OrdinateInPlot(view: View, ratio: real)
    requires 0.0 <= ratio <= 1.0
    ensures HEADROOM <= Ordinate(view, ratio) <= Max(HEADROOM, view.height)
  {
    var usable := view.UsableHeight();
    var share := 1.0 - ratio;
    ScaledBetween(share, 1.0, usable);
  }

  ghost predicate InsidePlot(view: View, y: real) { HEADROOM <= y <= Max(HEADROOM, view.height) }

  lemma PlotPointInside(samples: seq<Sample>, view: View, i: nat)
    requires i < |samples| && Present(samples, view, i)
    ensures InsidePlot(view, PlotPoint(samples, view, i).point.y)
  {
    hide Filtered, Ordinate;
    FilteredIsRatio(samples, view, i);
    OrdinateInPlot(view, Filtered(samples, view, i).filtered);
  }

  // --- Cubics correspond to neighbouring present samples --------------------

  /** A maximal stretch of present samples. */
  predicate IsRun(samples: seq<Sample>, view: View, a: nat, n: nat) {
    && AllPresent(samples, view, a, n)
    && (a == 0 || !Present(samples, view, a - 1))
    && (n == |samples| || !Present(samples, view, n))
  }

  /** Samples i - 1 and i both have a value and the later one is not left of the window. */
  predicate VisiblePair(samples: seq<Sample>, view: View, i: nat) {
    0 < i < |samples| && Present(samples, view, i - 1) && Present(samples, view, i) &&
    view.Cutoff() <= samples[i].elapsedMilliseconds as real
  }

  function VisiblePairs(samples: seq<Sample>, view: View, low: nat, high: nat): seq<nat> {
    if high <= low then []
    else VisiblePairs(samples, view, low, high - 1) + (if VisiblePair(samples, view, high - 1) then [high - 1] else [])
  }

  /** The cubic is the one of the pair (i - 1, i) inside its own uninterrupted run. */
  ghost predicate DrawsPair(c: CubicSegment, samples: seq<Sample>, view: View, i: nat) {
    exists a: nat, n: nat :: IsRun(samples, view, a, n) && a < i < n &&
      c == EmittedCubic(RunPoints(samples, view, a, n), i - 1 - a, view.Cutoff())
  }

  ghost predicate Draw(cubics: seq<CubicSegment>, samples: seq<Sample>, view: View, pairs: seq<nat>) {
    |cubics| == |pairs| && forall k :: 0 <= k < |cubics| ==> DrawsPair(cubics[k], samples, view, pairs[k])
  }

  function AllCubics(runs: seq<CurveRun>): seq<CubicSegment> {
    if runs == [] then [] else AllCubics(runs[..|runs| - 1]) + runs[|runs| - 1].cubics
  }

  lemma DrawConcat(c: seq<CubicSegment>, d: seq<CubicSegment>, samples: seq<Sample>, view: View, p: seq<nat>,
                   q: seq<nat>)
    requires Draw(c, samples, view, p) && Draw(d, samples, view, q)
    ensures Draw(c + d, samples, view, p + q)
  {
    hide DrawsPair;
  }

  lemma {:induction false} PairsConcat(samples: seq<Sample>, view: View, low: nat, middle: nat, high: nat)
    requires low <= middle <= high
    ensures VisiblePairs(samples, view, low, high) ==
            VisiblePairs(samples, view, low, middle) + VisiblePairs(samples, view, middle, high)
  {
    hide VisiblePair;
    if middle < high {
      PairsConcat(samples, view, low, middle, high - 1);
    }
  }

  lemma {:induction false} RunDrawsPairs(samples: seq<Sample>, view: View, a: nat, n: nat, m: nat)
    requires IsRun(samples, view, a, n) && (m == 0 || a + m < n)
    ensures Draw(RunCubics(RunPoints(samples, view, a, n), view.Cutoff(), m), samples, view,
                 VisiblePairs(samples, view, a + 1, a + 1 + m))
  {
    hide EmittedCubic, PlotPoint;
    if m > 0 {
      RunDrawsPairs(samples, view, a, n, m - 1);
      var points := RunPoints(samples, view, a, n);
      var i := a + m;
      assert points[m].time == samples[i].elapsedMilliseconds as real by { PlotStep(samples, view, i); }
      if view.Cutoff() <= points[m].time {
        var c := EmittedCubic(points, m - 1, view.Cutoff());
        assert DrawsPair(c, samples, view, i);
        DrawConcat(RunCubics(points, view.Cutoff(), m - 1), [c], samples, view,
                   VisiblePairs(samples, view, a + 1, a + m), [i]);
      }
    }
  }

  lemma CompletedDrawsPairs(samples: seq<Sample>, view: View, a: nat, n: nat)
    requires IsRun(samples, view, a, n)
    ensures Draw(AllCubics(CompletedRuns(RunPoints(samples, view, a, n), view.Cutoff())), samples, view,
                 VisiblePairs(samples, view, a, n))
  {
    hide RunCubics, RunPoints, Tessellate, VisibleSamples, VisiblePairs, VisiblePair, Draw;
    var points := RunPoints(samples, view, a, n);
    NoPairAtRunStart(samples, view, a, n);
    if n - a >= 2 {
      RunDrawsPairs(samples, view, a, n, n - a - 1);
      PairsConcat(samples, view, a, a + 1, n);
      var cubics := RunCubics(points, view.Cutoff(), n - a - 1);
      var run := CurveRun(VisibleSamples(points, view.Cutoff()), cubics, Tessellate(cubics));
      SingleRun(run);
      assert VisiblePairs(samples, view, a, n) == VisiblePairs(samples, view, a + 1, n);
    } else {
      NothingDrawn(samples, view);
    }
  }

  lemma SingleRun(run: CurveRun)
    ensures AllCubics([run]) == run.cubics
  {}

  lemma NothingDrawn(samples: seq<Sample>, view: View)
    ensures AllCubics([]) == [] && Draw([], samples, view, [])
  {}

  /** The first sample of a run has no predecessor to be joined to. */
  lemma NoPairAtRunStart(samples: seq<Sample>, view: View, a: nat, n: nat)
    requires a <= n <= |samples| && (a == 0 || !Present(samples, view, a - 1))
    ensures VisiblePairs(samples, view, a, a + 1) == []
    ensures n <= a + 1 ==> VisiblePairs(samples, view, a, n) == []
  {}

  lemma {:induction false} AllCubicsConcat(r: seq<CurveRun>, s: seq<CurveRun>)
    ensures AllCubics(r + s) == AllCubics(r) + AllCubics(s)
  {
    if s == [] {
      assert r + s == r;
    } else {
      var last := |s| - 1;
      AllCubicsConcat(r, s[..last]);
      assert (r + s)[..|r + s| - 1] == r + s[..last];
    }
  }

  lemma {:induction false} RunsBeforeDrawPairs(samples: seq<Sample>, view: View, n: nat)
    requires n <= |samples|
    ensures Draw(AllCubics(RunsBefore(samples, view, n)), samples, view,
                 VisiblePairs(samples, view, 0, GapStart(samples, view, n)))
  {
    hide RunsBefore, GapStart, CompletedRuns, RunPoints, PlotPoint, VisiblePair, VisiblePairs, Draw, AllCubics;
    if n == 0 {
      Start(samples, view);
      NothingDrawn(samples, view);
      PairsConcat(samples, view, 0, 0, 0);
      assert VisiblePairs(samples, view, 0, 0) == [];
    } else {
      RunsBeforeDrawPairs(samples, view, n - 1);
      if Present(samples, view, n - 1) {
        PresentStep(samples, view, n - 1);
      } else {
        MissingStep(samples, view, n - 1);
        var a := GapStart(samples, view, n - 1);
        var completed := CompletedRuns(RunPoints(samples, view, a, n - 1), view.Cutoff());
        CompletedDrawsPairs(samples, view, a, n - 1);
        AllCubicsConcat(RunsBefore(samples, view, n - 1), completed);
        PairsConcat(samples, view, 0, a, n - 1);
        DrawConcat(AllCubics(RunsBefore(samples, view, n - 1)), AllCubics(completed), samples, view,
                   VisiblePairs(samples, view, 0, a), VisiblePairs(samples, view, a, n - 1));
        MissingEndsNoPair(samples, view, n - 1);
      }
    }
  }

  lemma {:induction false} PairsAreVisible(samples: seq<Sample>, view: View, low: nat, high: nat, k: nat)
    requires k < |VisiblePairs(samples, view, low, high)|
    ensures VisiblePair(samples, view, VisiblePairs(samples, view, low, high)[k])
    decreases high
  {
    hide VisiblePair;
    if k < |VisiblePairs(samples, view, low, high - 1)| {
      PairsAreVisible(samples, view, low, high - 1, k);
    }
  }

  lemma {:induction false} VisiblePairIsListed(samples: seq<Sample>, view: View, low: nat, high: nat, i: nat)
    requires low <= i < high && VisiblePair(samples, view, i)
    ensures i in VisiblePairs(samples, view, low, high)
    decreases high
  {
    hide VisiblePair;
    if i < high - 1 {
      VisiblePairIsListed(samples, view, low, high - 1, i);
    }
  }

  lemma MissingEndsNoPair(samples: seq<Sample>, view: View, n: nat)
    requires n < |samples| && !Present(samples, view, n)
    ensures VisiblePairs(samples, view, 0, n + 1) == VisiblePairs(samples, view, 0, n)
  {}

  /**
   * The drawn cubics are, in order and one for one, those of the neighbouring present samples whose later time is in
   * the window: no gap is bridged, nothing visible is left out, nothing is drawn twice.
   */
  lemma CubicsAreVisiblePairs(samples: seq<Sample>, view: View)
    ensures Draw(AllCubics(Runs(samples, view)), samples, view, VisiblePairs(samples, view, 0, |samples|))
  {
    hide CompletedRuns, RunPoints, Draw, VisiblePair;
    var n := |samples|;
    var a := GapStart(samples, view, n);
    var completed := CompletedRuns(RunPoints(samples, view, a, n), view.Cutoff());
    RunsBeforeDrawPairs(samples, view, n);
    CompletedDrawsPairs(samples, view, a, n);
    AllCubicsConcat(RunsBefore(samples, view, n), completed);
    PairsConcat(samples, view, 0, a, n);
    DrawConcat(AllCubics(RunsBefore(samples, view, n)), AllCubics(completed), samples, view,
               VisiblePairs(samples, view, 0, a), VisiblePairs(samples, view, a, n));
  }

  // --- Every drawn curve ----------------------------------------------------

  /** A drawn cubic never turns back and stays inside the plot, whatever the timestamps. */
  lemma DrawnCubicIsTame(c: CubicSegment, samples: seq<Sample>, view: View, i: nat)
    requires DrawsPair(c, samples, view, i)
    ensures NeverTurnsBack(c)
    ensures forall t :: 0.0 <= t <= 1.0 ==> InsidePlot(view, CubicPoint(c, t).y)
  {
    hide EmittedCubic, PlotPoint, CubicPoint, NeverTurnsBack, Present;
    var a: nat, n: nat :| IsRun(samples, view, a, n) && a < i < n &&
      c == EmittedCubic(RunPoints(samples, view, a, n), i - 1 - a, view.Cutoff());
    var points := RunPoints(samples, view, a, n);
    EmittedNeverTurnsBack(points, i - 1 - a, view.Cutoff());
    PlotPointInside(samples, view, i - 1);
    PlotPointInside(samples, view, i);
    forall t | 0.0 <= t <= 1.0 ensures InsidePlot(view, CubicPoint(c, t).y) {
      EmittedBetweenSamples(points, i - 1 - a, view.Cutoff(), t);
    }
  }

  lemma RunIsPlotted(samples: seq<Sample>, view: View, a: nat, n: nat)
    requires AllPresent(samples, view, a, n) && view.width > 0.0
    ensures Plotted(RunPoints(samples, view, a, n), view.Cutoff(), view.width / WINDOW_MILLISECONDS)
  {
    hide Filtered, Ordinate;
    var points := RunPoints(samples, view, a, n);
    forall k | 0 <= k < n - a
      ensures points[k].point.x == view.width / WINDOW_MILLISECONDS * (points[k].time - view.Cutoff())
    {
      ScaleCommutes(view.width, points[k].time - view.Cutoff());
    }
  }

  lemma ScaleCommutes(width: real, offset: real)
    ensures width * (offset / WINDOW_MILLISECONDS) == width / WINDOW_MILLISECONDS * offset
  {}

  /**
   * For ordered timestamps a drawn cubic is exactly its segment from the window's left edge on: it starts at x = 0
   * when cut, ends at the later sample, and covers every visible moment between the two samples.
   */
  lemma DrawnCubicIsExact(samples: seq<Sample>, view: View, a: nat, n: nat, i: nat, t: real)
    requires IsRun(samples, view, a, n) && a < i < n && VisiblePair(samples, view, i)
    requires OrderedTimes(samples) && view.width > 0.0
    ensures var points := RunPoints(samples, view, a, n);
            var c := EmittedCubic(points, i - 1 - a, view.Cutoff());
            var p := CutParameter(points, i - 1 - a, view.Cutoff());
            && CubicPoint(c, t) == CubicPoint(SegmentCubic(points, i - 1 - a), Along(p, t))
            && points[i - 1 - a].time + p * Width(points, i - 1 - a) == Max(points[i - 1 - a].time, view.Cutoff())
            && c.start.x == Max(points[i - 1 - a].point.x, 0.0)
            && c.end == points[i - a].point
  {
    hide EmittedCubic, SegmentCubic, CubicPoint, Filtered, Abscissa, Ordinate, CutParameter;
    var points := RunPoints(samples, view, a, n);
    RunIsPlotted(samples, view, a, n);
    ClippedIsRestriction(points, i - 1 - a, view.Cutoff(), view.width / WINDOW_MILLISECONDS, t);
  }

  // --- Tessellation ---------------------------------------------------------

  function SubdivisionSum(cubics: seq<CubicSegment>): nat {
    if cubics == [] then 0 else SubdivisionSum(cubics[..|cubics| - 1]) + Subdivisions(cubics[|cubics| - 1])
  }

  ghost predicate OnCurve(p: Point, c: CubicSegment) {
    exists t :: 0.0 <= t <= 1.0 && p == CubicPoint(c, t)
  }

  /** Every tessellated point is a point of one of the run's cubics. */
  ghost predicate Follows(points: seq<Point>, cubics: seq<CubicSegment>) {
    forall k :: 0 <= k < |points| ==> exists j :: 0 <= j < |cubics| && OnCurve(points[k], cubics[j])
  }

  lemma StepsOnCurve(c: CubicSegment, k: nat)
    requires k < Subdivisions(c)
    ensures OnCurve(Steps(c, Subdivisions(c))[k], c)
  {
    hide CubicPoint, Subdivisions;
    var t := (k + 1) as real / Subdivisions(c) as real;
    QuotientBounds((k + 1) as real, Subdivisions(c) as real);
    assert 0.0 <= t <= 1.0 && Steps(c, Subdivisions(c))[k] == CubicPoint(c, t);
  }

  lemma LastOnCurve(c: CubicSegment)
    ensures var n := Subdivisions(c); Steps(c, n)[n - 1] == c.end
  {
    hide CubicPoint, Subdivisions;
    CubicEnds(c);
    var n := Subdivisions(c);
    assert n as real / n as real == 1.0;
    assert Steps(c, n)[n - 1] == CubicPoint(c, n as real / n as real);
  }

  /**
   * A run's polyline starts where its first cubic starts, ends where its last one ends, follows the cubics, and has
   * one point more than the sum of their subdivision counts, each of which is between 1 and 64.
   */
  lemma {:induction false} TessellationShape(cubics: seq<CubicSegment>)
    requires cubics != []
    ensures |Tessellate(cubics)| == 1 + SubdivisionSum(cubics)
    ensures |cubics| <= SubdivisionSum(cubics) <= MAXIMUM_SUBDIVISIONS * |cubics|
    ensures Tessellate(cubics)[0] == cubics[0].start
    ensures Tessellate(cubics)[|Tessellate(cubics)| - 1] == cubics[|cubics| - 1].end
    ensures Follows(Tessellate(cubics), cubics)
  {
    hide CubicPoint, Subdivisions, Steps, OnCurve;
    var last := |cubics| - 1;
    var c := cubics[last];
    var before := if last == 0 then [c.start] else Tessellate(cubics[..last]);
    var steps := Steps(c, Subdivisions(c));
    StepsLength(c);
    LastOnCurve(c);
    if last > 0 {
      TessellationShape(cubics[..last]);
    }
    forall k | 0 <= k < |before + steps|
      ensures exists j :: 0 <= j < |cubics| && OnCurve((before + steps)[k], cubics[j])
    {
      if k >= |before| {
        StepsOnCurve(c, k - |before|);
      } else if last == 0 {
        StartOnCurve(c);
      } else {
        var j :| 0 <= j < last && OnCurve(before[k], cubics[..last][j]);
        assert OnCurve((before + steps)[k], cubics[j]);
      }
    }
  }

  lemma StepsLength(c: CubicSegment)
    ensures |Steps(c, Subdivisions(c))| == Subdivisions(c)
  {}

  lemma StartOnCurve(c: CubicSegment)
    ensures OnCurve(c.start, c)
  {
    hide CubicPoint;
    CubicEnds(c);
    assert c.start == CubicPoint(c, 0.0) && 0.0 <= 0.0 <= 1.0;
  }

  lemma {:induction false} RunCubicsAreDrawn(runs: seq<CurveRun>, k: nat, c: CubicSegment)
    requires k < |runs| && c in runs[k].cubics
    ensures c in AllCubics(runs)
  {
    if k < |runs| - 1 {
      RunCubicsAreDrawn(runs[..|runs| - 1], k, c);
    }
  }

  ghost predicate Tessellated(run: CurveRun) { run.cubics != [] && run.tessellated == Tessellate(run.cubics) }

  lemma {:induction false} RunsBeforeTessellated(samples: seq<Sample>, view: View, n: nat)
    requires n <= |samples|
    ensures forall r :: r in RunsBefore(samples, view, n) ==> Tessellated(r)
  {
    hide RunPoints, CompletedRuns, Tessellated;
    if n > 0 {
      RunsBeforeTessellated(samples, view, n - 1);
      CompletedIsTessellated(RunPoints(samples, view, GapStart(samples, view, n - 1), n - 1), view.Cutoff());
    }
  }

  lemma DrawnCubicOfRun(samples: seq<Sample>, view: View, run: CurveRun, c: CubicSegment) returns (i: nat)
    requires run in Runs(samples, view) && c in run.cubics
    ensures DrawsPair(c, samples, view, i) && i in VisiblePairs(samples, view, 0, |samples|)
  {
    hide Runs, DrawsPair;
    var runs := Runs(samples, view);
    var k :| 0 <= k < |runs| && runs[k] == run;
    RunCubicsAreDrawn(runs, k, c);
    CubicsAreVisiblePairs(samples, view);
    var m :| 0 <= m < |AllCubics(runs)| && AllCubics(runs)[m] == c;
    i := VisiblePairs(samples, view, 0, |samples|)[m];
  }

  /** Every run's polyline stays inside the plot and is bounded in length by 64 points per drawn interval. */
  lemma PolylineInsidePlot(samples: seq<Sample>, view: View, run: CurveRun)
    requires run in Runs(samples, view)
    ensures run.cubics != []
    ensures |run.tessellated| == 1 + SubdivisionSum(run.cubics) <= 1 + MAXIMUM_SUBDIVISIONS * |run.cubics|
    ensures forall p :: p in run.tessellated ==> InsidePlot(view, p.y)
  {
    hide RunPoints, CompletedRuns, RunsBefore, Tessellate, CubicPoint, SubdivisionSum, Subdivisions, DrawsPair;
    RunsBeforeTessellated(samples, view, |samples|);
    CompletedIsTessellated(RunPoints(samples, view, GapStart(samples, view, |samples|), |samples|), view.Cutoff());
    assert Tessellated(run);
    TessellationShape(run.cubics);
    forall p | p in run.tessellated ensures InsidePlot(view, p.y) {
      var k :| 0 <= k < |run.tessellated| && run.tessellated[k] == p;
      var j :| 0 <= j < |run.cubics| && OnCurve(run.tessellated[k], run.cubics[j]);
      var i := DrawnCubicOfRun(samples, view, run, run.cubics[j]);
      DrawnCubicIsTame(run.cubics[j], samples, view, i);
    }
  }

  lemma CompletedIsTessellated(points: seq<TimedPoint>, cutoff: real)
    ensures forall r :: r in CompletedRuns(points, cutoff) ==> Tessellated(r)
  {
    hide RunCubics, Tessellate, VisibleSamples;
  }
}
