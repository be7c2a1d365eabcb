/** The looping parts of src/dashboard/resource_history_geometry.cpp, each proved against a specification function. */
module CurveBuilder {
  import opened Wrappers
  import opened Reals
  import opened CurveGeometry

  // --- Specification --------------------------------------------------------

  /** What one call of buildMetricGeometry is about: the metric, the plot area, the window and the filter's exp. */
  datatype View = View(metric: Metric, width: real, height: real, windowEnd: real, decay: Decay) {
    function Cutoff(): real { windowEnd - WINDOW_MILLISECONDS }

    function UsableHeight(): real { Max(0.0, height - HEADROOM) }
  }

  predicate Present(samples: seq<Sample>, view: View, i: nat)
    requires i < |samples|
  {
    ValueFor(samples[i], view.metric).Some?
  }

  function Raw(samples: seq<Sample>, view: View, i: nat): real
    requires i < |samples| && Present(samples, view, i)
  {
    Clamp(ValueFor(samples[i], view.metric).value, 0.0, 1.0)
  }

  /** The filter state after sample i, restarted after every gap. */
  function Filtered(samples: seq<Sample>, view: View, i: nat): FilterState
    requires i < |samples| && Present(samples, view, i)
  {
    var previous := if i > 0 && Present(samples, view, i - 1) then Some(Filtered(samples, view, i - 1)) else None;
    FilterRatio(Raw(samples, view, i), samples[i].elapsedMilliseconds, view.metric, previous, view.decay)
  }

  function Abscissa(view: View, elapsed: int): real {
    view.width * ((elapsed as real - view.Cutoff()) / WINDOW_MILLISECONDS)
  }

  function Ordinate(view: View, ratio: real): real { HEADROOM + view.UsableHeight() * (1.0 - ratio) }

  function PlotPoint(samples: seq<Sample>, view: View, i: nat): TimedPoint
    requires i < |samples| && Present(samples, view, i)
  {
    var elapsed := samples[i].elapsedMilliseconds;
    TimedPoint(elapsed as real, Point(Abscissa(view, elapsed), Ordinate(view, Filtered(samples, view, i).filtered)))
  }

  predicate AllPresent(samples: seq<Sample>, view: View, a: nat, n: nat) {
    a <= n <= |samples| && forall i :: a <= i < n ==> Present(samples, view, i)
  }

  function RunPoints(samples: seq<Sample>, view: View, a: nat, n: nat): (points: seq<TimedPoint>)
    requires AllPresent(samples, view, a, n)
    ensures |points| == n - a
    ensures forall k :: 0 <= k < n - a ==> points[k] == PlotPoint(samples, view, a + k)
  {
    seq(n - a, k requires 0 <= k < n - a => PlotPoint(samples, view, a + k))
  }

  /** Where the uninterrupted stretch of present samples ending just before n begins. */
  function GapStart(samples: seq<Sample>, view: View, n: nat): (a: nat)
    requires n <= |samples|
    ensures AllPresent(samples, view, a, n)
    ensures a == 0 || !Present(samples, view, a - 1)
  {
    if n == 0 || !Present(samples, view, n - 1) then n else GapStart(samples, view, n - 1)
  }

  function RunCubics(points: seq<TimedPoint>, cutoff: real, n: nat): seq<CubicSegment>
    requires n == 0 || n < |points|
  {
    if n == 0 then []
    else RunCubics(points, cutoff, n - 1) +
         (if cutoff <= points[n].time then [EmittedCubic(points, n - 1, cutoff)] else [])
  }

  function VisibleSamples(points: seq<TimedPoint>, cutoff: real): seq<Point> {
    if points == [] then []
    else VisibleSamples(points[..|points| - 1], cutoff) +
         (if cutoff <= points[|points| - 1].time then [points[|points| - 1].point] else [])
  }

  function Steps(c: CubicSegment, n: nat): seq<Point> { seq(n, k => TessellationPoint(c, k + 1)) }

  function Tessellate(cubics: seq<CubicSegment>): seq<Point> {
    if cubics == [] then []
    else
      var last := cubics[|cubics| - 1];
      var before := if |cubics| == 1 then [last.start] else Tessellate(cubics[..|cubics| - 1]);
      before + Steps(last, Subdivisions(last))
  }

  /** The runs a stretch of present samples contributes: none, or one. */
  function CompletedRuns(points: seq<TimedPoint>, cutoff: real): seq<CurveRun> {
    if |points| < 2 then []
    else
      var cubics := RunCubics(points, cutoff, |points| - 1);
      if cubics == [] then [] else [CurveRun(VisibleSamples(points, cutoff), cubics, Tessellate(cubics))]
  }

  /** The runs finished by the gaps before sample n. */
  function RunsBefore(samples: seq<Sample>, view: View, n: nat): seq<CurveRun>
    requires n <= |samples|
  {
    if n == 0 then []
    else if Present(samples, view, n - 1) then RunsBefore(samples, view, n - 1)
    else
      RunsBefore(samples, view, n - 1) +
      CompletedRuns(RunPoints(samples, view, GapStart(samples, view, n - 1), n - 1), view.Cutoff())
  }

  function Runs(samples: seq<Sample>, view: View): seq<CurveRun> {
    var n := |samples|;
    RunsBefore(samples, view, n) +
    CompletedRuns(RunPoints(samples, view, GapStart(samples, view, n), n), view.Cutoff())
  }

  function Geometry(samples: seq<Sample>, view: View): MetricGeometry {
    if samples == [] then MetricGeometry([], None)
    else
      var last := |samples| - 1;
      MetricGeometry(Runs(samples, view),
                     if Present(samples, view, last) then Some(PlotPoint(samples, view, last).point) else None)
  }

  // --- The loops ------------------------------------------------------------

  method MonotoneTangents(points: seq<TimedPoint>) returns (tangents: seq<real>)
    ensures |tangents| == |points|
    ensures forall i :: 0 <= i < |points| ==> tangents[i] == Tangent(points, i)
  {
    tangents := seq(|points|, _ => 0.0);
    if |points| < 2 {
      return;
    }
    var widths: seq<real>, slopes: seq<real> := [], [];
    for index := 0 to |points| - 1
      invariant |widths| == |slopes| == index
      invariant forall k :: 0 <= k < index ==> widths[k] == Width(points, k) && slopes[k] == Slope(points, k)
    {
      var width := points[index + 1].time - points[index].time;
      widths := widths + [width];
      slopes := slopes +
        [if width > 0.0 then (points[index + 1].point.y - points[index].point.y) / width else 0.0];
    }
    if |points| == 2 {
      tangents := tangents[0 := slopes[0]][1 := slopes[0]];
      return;
    }
    tangents := tangents[0 := if widths[0] > 0.0 && widths[1] > 0.0
                              then EndpointTangent(slopes[0], slopes[1], widths[0], widths[1]) else 0.0];
    var last := |points| - 1;
    for index := 1 to last
      invariant |tangents| == |points|
      invariant forall k :: 0 <= k < index ==> tangents[k] == Tangent(points, k)
    {
      tangents := tangents[index :=
        HarmonicTangent(slopes[index - 1], slopes[index], widths[index - 1], widths[index])];
    }
    tangents := tangents[last := if widths[last - 1] > 0.0 && widths[last - 2] > 0.0
                                 then EndpointTangent(slopes[last - 1], slopes[last - 2],
                                                       widths[last - 1], widths[last - 2])
                                 else 0.0];
  }

  /** The cubic of one interval, built from precomputed tangents and clipped as the loop body of completeRun does. */
  method EmitSegment(points: seq<TimedPoint>, tangents: seq<real>, i: nat, cutoff: real) returns (cubic: CubicSegment)
    requires i + 1 < |points| == |tangents|
    requires forall k :: 0 <= k < |points| ==> tangents[k] == Tangent(points, k)
    ensures cubic == EmittedCubic(points, i, cutoff)
  {
    hide Tangent;
    var start, end := points[i].point, points[i + 1].point;
    var width := points[i + 1].time - points[i].time;
    var low, high := Min(start.y, end.y), Max(start.y, end.y);
    cubic := CubicSegment(start,
                          Point(start.x + (end.x - start.x) / 3.0, start.y + (end.y - start.y) / 3.0),
                          Point(start.x + (end.x - start.x) * (2.0 / 3.0), start.y + (end.y - start.y) * (2.0 / 3.0)),
                          end);
    if width > 0.0 {
      cubic := cubic.(control1 := cubic.control1.(y := Clamp(start.y + tangents[i] * width / 3.0, low, high)));
      cubic := cubic.(control2 := cubic.control2.(y := Clamp(end.y - tangents[i + 1] * width / 3.0, low, high)));
    }
    assert cubic == SegmentCubic(points, i);
    if points[i].time < cutoff && width > 0.0 {
      cubic := SplitRight(cubic, Clamp((cutoff - points[i].time) / width, 0.0, 1.0));
      cubic := cubic.(start := cubic.start.(x := 0.0));
    }
    cubic := CubicSegment(
      KeepRight(cubic.start), KeepRight(cubic.control1), KeepRight(cubic.control2), KeepRight(cubic.end));
  }

  /** The inner loop of completeRun: one point per subdivision of the cubic. */
  method AppendSteps(tessellated: seq<Point>, cubic: CubicSegment) returns (extended: seq<Point>)
    ensures extended == tessellated + Steps(cubic, Subdivisions(cubic))
  {
    hide CubicPoint, Subdivisions;
    extended := tessellated;
    var subdivisions := Subdivisions(cubic);
    for step := 1 to subdivisions + 1
      invariant extended == tessellated + Steps(cubic, step - 1)
    {
      extended := extended + [CubicPoint(cubic, step as real / subdivisions as real)];
    }
  }

  lemma TessellateEmpty()
    ensures Tessellate([]) == []
  {}

  lemma TessellateStep(cubics: seq<CubicSegment>, cubic: CubicSegment)
    ensures Tessellate(cubics) == [] <==> cubics == []
    ensures Tessellate(cubics + [cubic]) ==
            (if cubics == [] then [cubic.start] else Tessellate(cubics)) + Steps(cubic, Subdivisions(cubic))
  {
    hide CubicPoint, Subdivisions;
    assert (cubics + [cubic])[..|cubics|] == cubics;
  }

  /** completeRun: turns the collected points into at most one more run and leaves the collection empty. */
  method CompleteRun(points: seq<TimedPoint>, runs: seq<CurveRun>, cutoff: real)
    returns (points': seq<TimedPoint>, runs': seq<CurveRun>)
    ensures points' == []
    ensures runs' == runs + CompletedRuns(points, cutoff)
  {
    hide EmittedCubic, Steps, Tangent, Tessellate, Subdivisions, RunCubics, VisibleSamples;
    TessellateEmpty();
    points', runs' := [], runs;
    if |points| < 2 {
      return;
    }
    var cubics: seq<CubicSegment>, tessellated: seq<Point> := [], [];
    var tangents := MonotoneTangents(points);
    var samples := VisiblePoints(points, cutoff);
    NoCubicsYet(points, cutoff);
    for index := 0 to |points| - 1
      invariant cubics == RunCubics(points, cutoff, index)
      invariant tessellated == Tessellate(cubics)
    {
      var cubic := EmitSegment(points, tangents, index, cutoff);
      NextCubic(points, cutoff, index);
      if points[index + 1].time < cutoff {
        continue;
      }
      TessellateStep(cubics, cubic);
      if tessellated == [] {
        tessellated := tessellated + [cubic.start];
      }
      cubics := cubics + [cubic];
      tessellated := AppendSteps(tessellated, cubic);
    }
    if cubics != [] {
      runs' := runs' + [CurveRun(samples, cubics, tessellated)];
    }
  }

  /** The first loop: the samples from the cutoff on. */
  method VisiblePoints(points: seq<TimedPoint>, cutoff: real) returns (samples: seq<Point>)
    ensures samples == VisibleSamples(points, cutoff)
  {
    samples := [];
    for index := 0 to |points|
      invariant samples == VisibleSamples(points[..index], cutoff)
    {
      assert points[..index + 1][..index] == points[..index];
      if points[index].time >= cutoff {
        samples := samples + [points[index].point];
      }
    }
    assert points[..|points|] == points;
  }

  lemma NoCubicsYet(points: seq<TimedPoint>, cutoff: real)
    ensures RunCubics(points, cutoff, 0) == []
  {}

  lemma NextCubic(points: seq<TimedPoint>, cutoff: real, n: nat)
    requires n + 1 < |points|
    ensures RunCubics(points, cutoff, n + 1) == RunCubics(points, cutoff, n) +
            (if cutoff <= points[n + 1].time then [EmittedCubic(points, n, cutoff)] else [])
  {
    hide EmittedCubic;
  }

  lemma Start(samples: seq<Sample>, view: View)
    ensures GapStart(samples, view, 0) == 0
    ensures RunPoints(samples, view, 0, 0) == [] && RunsBefore(samples, view, 0) == []
  {}

  /** The state in force before sample n. */
  function StateBefore(samples: seq<Sample>, view: View, n: nat): Option<FilterState>
    requires n <= |samples|
  {
    if n > 0 && Present(samples, view, n - 1) then Some(Filtered(samples, view, n - 1)) else None
  }

  lemma PlotStep(samples: seq<Sample>, view: View, n: nat)
    requires n < |samples| && Present(samples, view, n)
    ensures var elapsed := samples[n].elapsedMilliseconds;
            var state := FilterRatio(Raw(samples, view, n), elapsed, view.metric, StateBefore(samples, view, n),
                view.decay);
            && Filtered(samples, view, n) == state
            && PlotPoint(samples, view, n) ==
               TimedPoint(elapsed as real, Point(Abscissa(view, elapsed), Ordinate(view, state.filtered)))
  {
    hide FilterRatio, Clamp, Abscissa, Ordinate;
  }

  lemma PresentStep(samples: seq<Sample>, view: View, n: nat)
    requires n < |samples| && Present(samples, view, n)
    ensures GapStart(samples, view, n + 1) == GapStart(samples, view, n)
    ensures RunPoints(samples, view, GapStart(samples, view, n), n + 1) ==
            RunPoints(samples, view, GapStart(samples, view, n), n) + [PlotPoint(samples, view, n)]
    ensures RunsBefore(samples, view, n + 1) == RunsBefore(samples, view, n)
  {
    hide PlotPoint;
  }

  lemma MissingStep(samples: seq<Sample>, view: View, n: nat)
    requires n < |samples| && !Present(samples, view, n)
    ensures GapStart(samples, view, n + 1) == n + 1
    ensures RunPoints(samples, view, n + 1, n + 1) == []
    ensures RunsBefore(samples, view, n + 1) ==
            RunsBefore(samples, view, n) +
            CompletedRuns(RunPoints(samples, view, GapStart(samples, view, n), n), view.Cutoff())
  {
    hide PlotPoint, CompletedRuns;
  }

  /** buildMetricGeometry over the retained prefix followed by the model's own samples. */
  method BuildMetricGeometry(samples: seq<Sample>, view: View, retainedPrefix: seq<Sample>)
    returns (result: MetricGeometry)
    ensures samples == [] || view.width <= 0.0 || view.height <= 0.0 ==> result == MetricGeometry([], None)
    ensures samples != [] && view.width > 0.0 && view.height > 0.0 ==>
      result == Geometry(retainedPrefix + samples, view)
  {
    hide FilterRatio, CompletedRuns, RunsBefore, GapStart, RunPoints, PlotPoint, Filtered, Clamp, Abscissa, Ordinate;
    if samples == [] || view.width <= 0.0 || view.height <= 0.0 {
      return MetricGeometry([], None);
    }
    var cutoff := view.windowEnd - WINDOW_MILLISECONDS;
    var run: seq<TimedPoint>, runs: seq<CurveRun> := [], [];
    var renderSamples := retainedPrefix + samples;
    var filterState: Option<FilterState> := None;
    var newestFilteredRatio: Option<real> := None;
    Start(renderSamples, view);
    for index := 0 to |renderSamples|
      invariant runs == RunsBefore(renderSamples, view, index)
      invariant run == RunPoints(renderSamples, view, GapStart(renderSamples, view, index), index)
      invariant filterState == StateBefore(renderSamples, view, index)
      invariant newestFilteredRatio == if index == |renderSamples| && Present(renderSamples, view, index - 1)
                                       then Some(Filtered(renderSamples, view, index - 1).filtered) else None
    {
      var sample := renderSamples[index];
      var value := ValueFor(sample, view.metric);
      if value.None? {
        MissingStep(renderSamples, view, index);
        run, runs := CompleteRun(run, runs, cutoff);
        filterState := None;
        continue;
      }
      PresentStep(renderSamples, view, index);
      PlotStep(renderSamples, view, index);
      var elapsed := sample.elapsedMilliseconds;
      var raw := Clamp(value.value, 0.0, 1.0);
      var filtered := FilterRatio(raw, elapsed, view.metric, filterState, view.decay);
      filterState := Some(filtered);
      run := run + [TimedPoint(elapsed as real, Point(Abscissa(view, elapsed), Ordinate(view, filtered.filtered)))];
      if index + 1 == |renderSamples| {
        newestFilteredRatio := Some(filtered.filtered);
      }
    }
    run, runs := CompleteRun(run, runs, cutoff);
    result := MetricGeometry(runs, None);
    if newestFilteredRatio.Some? {
      PlotStep(renderSamples, view, |renderSamples| - 1);
      var newestX := Abscissa(view, samples[|samples| - 1].elapsedMilliseconds);
      result := result.(currentEndpoint := Some(Point(newestX, Ordinate(view, newestFilteredRatio.value))));
    }
  }
}
