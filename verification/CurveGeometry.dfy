/** The pure parts of src/dashboard/resource_history_geometry.cpp, with C++ doubles read as exact reals. */
module CurveGeometry {
  import opened Wrappers
  import opened Reals
  import Bezier

  datatype Sample = Sample(elapsedMilliseconds: int, cpu: Option<real>, memory: Option<real>)

  datatype Metric = Cpu | Memory

  datatype Point = Point(x: real, y: real)

  datatype TimedPoint = TimedPoint(time: real, point: Point)

  datatype CubicSegment = CubicSegment(start: Point, control1: Point, control2: Point, end: Point)

  datatype CurveRun = CurveRun(samples: seq<Point>, cubics: seq<CubicSegment>, tessellated: seq<Point>)

  datatype MetricGeometry = MetricGeometry(runs: seq<CurveRun>, currentEndpoint: Option<Point>)

  datatype FilterState = FilterState(raw: real, filtered: real, elapsedMilliseconds: int)

  /** exp(-x): all the filter relies on is that it lies strictly between 0 and 1 for positive x. */
  type Decay = f: real -> real | forall x: real :: 0.0 < x ==> 0.0 < f(x) < 1.0 witness (x: real) => 0.5

  const WINDOW_MILLISECONDS: real := 60000.0
  const HEADROOM: real := 6.0
  const PIXELS_PER_POINT: real := 1.0
  const MAXIMUM_SUBDIVISIONS := 64
  const CPU_SLOW_TIME_CONSTANT: real := 1.8
  const CPU_FAST_TIME_CONSTANT: real := 0.35
  const CPU_SLOW_CHANGE: real := 0.03
  const CPU_FAST_CHANGE: real := 0.25
  const MEMORY_TIME_CONSTANT: real := 3.0

  function ValueFor(sample: Sample, metric: Metric): Option<real> {
    if metric.Cpu? then sample.cpu else sample.memory
  }

  // --- Cubic segments -------------------------------------------------------

  function CubicPoint(c: CubicSegment, t: real): Point {
    Point(Bezier.Value(c.start.x, c.control1.x, c.control2.x, c.end.x, t),
          Bezier.Value(c.start.y, c.control1.y, c.control2.y, c.end.y, t))
  }

  function SplitRight(c: CubicSegment, p: real): CubicSegment {
    var x := Bezier.SplitRight(c.start.x, c.control1.x, c.control2.x, c.end.x, p);
    var y := Bezier.SplitRight(c.start.y, c.control1.y, c.control2.y, c.end.y, p);
    CubicSegment(Point(x.0, y.0), Point(x.1, y.1), Point(x.2, y.2), c.end)
  }

  // --- Adaptive filter ------------------------------------------------------

  function TimeConstant(metric: Metric, rawChange: real): (seconds: real)
    ensures metric.Cpu? ==> CPU_FAST_TIME_CONSTANT <= seconds <= CPU_SLOW_TIME_CONSTANT
    ensures metric.Cpu? && rawChange <= CPU_SLOW_CHANGE ==> seconds == CPU_SLOW_TIME_CONSTANT
    ensures metric.Cpu? && rawChange >= CPU_FAST_CHANGE ==> seconds == CPU_FAST_TIME_CONSTANT
    ensures 0.0 < seconds
  {
    if metric.Memory? then MEMORY_TIME_CONSTANT
    else
      var progress := Clamp((rawChange - CPU_SLOW_CHANGE) / (CPU_FAST_CHANGE - CPU_SLOW_CHANGE), 0.0, 1.0);
      CPU_SLOW_TIME_CONSTANT + progress * (CPU_FAST_TIME_CONSTANT - CPU_SLOW_TIME_CONSTANT)
  }

  /** The state filterRatio leaves behind; the value it returns is always the new state's filtered ratio. */
  function FilterRatio(raw: real, elapsed: int, metric: Metric, state: Option<FilterState>, decay: Decay): FilterState {
    match state
    case None => FilterState(raw, raw, elapsed)
    case Some(previous) =>
      var delta := elapsed - previous.elapsedMilliseconds;
      if delta > 0 then
        var seconds := delta as real / 1000.0;
        var alpha := 1.0 - decay(seconds / TimeConstant(metric, Abs(raw - previous.raw)));
        FilterState(raw, previous.filtered + (raw - previous.filtered) * alpha, elapsed)
      else FilterState(raw, raw, elapsed)
  }

  ghost predicate OrderedTimes(samples: seq<Sample>) {
    forall i, j :: 0 <= i <= j < |samples| ==> samples[i].elapsedMilliseconds <= samples[j].elapsedMilliseconds
  }

  // --- Tangents -------------------------------------------------------------

  function Width(points: seq<TimedPoint>, i: nat): real
    requires i + 1 < |points|
  {
    points[i + 1].time - points[i].time
  }

  function Slope(points: seq<TimedPoint>, i: nat): real
    requires i + 1 < |points|
  {
    var width := Width(points, i);
    if width > 0.0 then (points[i + 1].point.y - points[i].point.y) / width else 0.0
  }

  function EndpointTangent(firstSlope: real, secondSlope: real, firstWidth: real, secondWidth: real): real
    requires firstWidth > 0.0 && secondWidth > 0.0
  {
    var tangent :=
      ((2.0 * firstWidth + secondWidth) * firstSlope - firstWidth * secondSlope) / (firstWidth + secondWidth);
    if tangent * firstSlope <= 0.0 then 0.0
    else if firstSlope * secondSlope < 0.0 && Abs(tangent) > Abs(3.0 * firstSlope) then 3.0 * firstSlope
    else tangent
  }

  /** The weighted harmonic mean of two slopes of the same sign, written with their reciprocals as the code does. */
  function HarmonicTangent(beforeSlope: real, afterSlope: real, beforeWidth: real, afterWidth: real): real {
    if beforeWidth <= 0.0 || afterWidth <= 0.0 || beforeSlope * afterSlope <= 0.0 then 0.0
    else
      var beforeWeight := 2.0 * afterWidth + beforeWidth;
      var afterWeight := afterWidth + 2.0 * beforeWidth;
      SameSignQuotients(beforeWeight, afterWeight, beforeSlope, afterSlope);
      (beforeWeight + afterWeight) / (beforeWeight / beforeSlope + afterWeight / afterSlope)
  }

  lemma SameSignQuotients(a: real, b: real, s: real, t: real)
    requires a > 0.0 && b > 0.0 && s * t > 0.0
    ensures s != 0.0 && t != 0.0 && (s > 0.0 <==> t > 0.0)
    ensures s > 0.0 ==> a / s > 0.0 && b / t > 0.0
    ensures s < 0.0 ==> a / s < 0.0 && b / t < 0.0
  {
    if s > 0.0 && t < 0.0 {
      ProductNonNegative(s, -t);
    } else if s < 0.0 && t > 0.0 {
      ProductNonNegative(-s, t);
    }
  }

  function Tangent(points: seq<TimedPoint>, i: nat): real
    requires i < |points|
  {
    var last := |points| - 1;
    if last == 0 then 0.0
    else if last == 1 then Slope(points, 0)
    else if i == 0 then
      if Width(points, 0) > 0.0 && Width(points, 1) > 0.0
      then EndpointTangent(Slope(points, 0), Slope(points, 1), Width(points, 0), Width(points, 1)) else 0.0
    else if i == last then
      if Width(points, last - 1) > 0.0 && Width(points, last - 2) > 0.0
      then EndpointTangent(Slope(points, last - 1), Slope(points, last - 2),
                           Width(points, last - 1), Width(points, last - 2))
      else 0.0
    else HarmonicTangent(Slope(points, i - 1), Slope(points, i), Width(points, i - 1), Width(points, i))
  }

  // --- One sample interval --------------------------------------------------

  /** The cubic drawn between samples i and i + 1 before any clipping. */
  function SegmentCubic(points: seq<TimedPoint>, i: nat): CubicSegment
    requires i + 1 < |points|
  {
    var start := points[i].point;
    var end := points[i + 1].point;
    var width := Width(points, i);
    var x1 := start.x + (end.x - start.x) / 3.0;
    var x2 := start.x + (end.x - start.x) * (2.0 / 3.0);
    if width <= 0.0 then
      CubicSegment(start, Point(x1, start.y + (end.y - start.y) / 3.0),
                   Point(x2, start.y + (end.y - start.y) * (2.0 / 3.0)), end)
    else
      var low := Min(start.y, end.y);
      var high := Max(start.y, end.y);
      CubicSegment(start, Point(x1, Clamp(start.y + Tangent(points, i) * width / 3.0, low, high)),
                   Point(x2, Clamp(end.y - Tangent(points, i + 1) * width / 3.0, low, high)), end)
  }

  function KeepRight(point: Point): Point { Point(Max(point.x, 0.0), point.y) }

  /** Where on segment i the window's left edge falls, as a curve parameter; 0 when it does not cut the segment. */
  function CutParameter(points: seq<TimedPoint>, i: nat, cutoff: real): real
    requires i + 1 < |points|
  {
    if points[i].time < cutoff && Width(points, i) > 0.0
    then Clamp((cutoff - points[i].time) / Width(points, i), 0.0, 1.0) else 0.0
  }

  /** The cubic completeRun stores for segment i: cut at the window edge, no x left of zero. */
  function EmittedCubic(points: seq<TimedPoint>, i: nat, cutoff: real): CubicSegment
    requires i + 1 < |points|
  {
    var whole := SegmentCubic(points, i);
    var cut :=
      if points[i].time < cutoff && Width(points, i) > 0.0 then
        var right := SplitRight(whole, CutParameter(points, i, cutoff));
        right.(start := Point(0.0, right.start.y))
      else whole;
    CubicSegment(KeepRight(cut.start), KeepRight(cut.control1), KeepRight(cut.control2), KeepRight(cut.end))
  }

  // --- Tessellation ---------------------------------------------------------

  function Subdivisions(c: CubicSegment): (count: int)
    ensures 1 <= count <= MAXIMUM_SUBDIVISIONS
  {
    var wanted := Ceil(Abs(c.end.x - c.start.x) / PIXELS_PER_POINT);
    if wanted < 1 then 1 else if MAXIMUM_SUBDIVISIONS < wanted then MAXIMUM_SUBDIVISIONS else wanted
  }

  function TessellationPoint(c: CubicSegment, step: int): Point {
    CubicPoint(c, step as real / Subdivisions(c) as real)
  }
}
