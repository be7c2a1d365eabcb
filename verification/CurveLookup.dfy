/** curveIntersection of src/dashboard/resource_history_geometry.cpp: where the drawn curve crosses a given abscissa. */
module CurveLookup {
  import opened Wrappers
  import opened Reals
  import opened CurveGeometry
  import opened CurveShape
  import opened CurveBuilder
  import opened CurveTheorems
  import Bezier

  const EPSILON: real := 0.000001
  const ITERATIONS := 32

  // --- Specification --------------------------------------------------------

  /** The parameter interval left after n halvings. */
  function Bracket(c: CubicSegment, x: real, n: nat): (real, real) {
    if n == 0 then (0.0, 1.0)
    else
      var before := Bracket(c, x, n - 1);
      var middle := (before.0 + before.1) / 2.0;
      if CubicPoint(c, middle).x < x then (middle, before.1) else (before.0, middle)
  }

  function BisectionParameter(c: CubicSegment, x: real): real {
    var bracket := Bracket(c, x, ITERATIONS);
    (bracket.0 + bracket.1) / 2.0
  }

  /** What one cubic answers: nothing when the abscissa is outside it or it is too narrow and elsewhere. */
  function Crossing(c: CubicSegment, x: real): Option<Point> {
    if x < Min(c.start.x, c.end.x) - EPSILON || x > Max(c.start.x, c.end.x) + EPSILON then None
    else if Abs(c.end.x - c.start.x) <= EPSILON then
      if Abs(x - c.start.x) <= EPSILON then Some(c.end) else None
    else Some(Point(x, CubicPoint(c, BisectionParameter(c, x)).y))
  }

  function FirstCrossing(cubics: seq<CubicSegment>, x: real): Option<Point> {
    if cubics == [] then None
    else if Crossing(cubics[0], x).Some? then Crossing(cubics[0], x)
    else FirstCrossing(cubics[1..], x)
  }

  function Intersection(geometry: MetricGeometry, x: real): Option<Point> {
    var crossing := FirstCrossing(AllCubics(geometry.runs), x);
    if crossing.Some? then crossing
    else if geometry.currentEndpoint.Some? && Abs(geometry.currentEndpoint.value.x - x) <= EPSILON
    then geometry.currentEndpoint else None
  }

  // --- The loops ------------------------------------------------------------

  method Bisect(c: CubicSegment, x: real) returns (progress: real)
    ensures progress == BisectionParameter(c, x)
  {
    hide CubicPoint;
    var lower, upper := 0.0, 1.0;
    for iteration := 0 to ITERATIONS
      invariant Bracket(c, x, iteration) == (lower, upper)
    {
      var middle := (lower + upper) / 2.0;
      if CubicPoint(c, middle).x < x {
        lower := middle;
      } else {
        upper := middle;
      }
    }
    progress := (lower + upper) / 2.0;
  }

  /** The body of the inner loop: the cubic's answer, or None to go on to the next one. */
  method CrossCubic(cubic: CubicSegment, x: real) returns (result: Option<Point>)
    ensures result == Crossing(cubic, x)
  {
    hide CubicPoint, BisectionParameter;
    var minimumX := Min(cubic.start.x, cubic.end.x);
    var maximumX := Max(cubic.start.x, cubic.end.x);
    if x < minimumX - EPSILON || x > maximumX + EPSILON {
      return None;
    }
    if Abs(cubic.end.x - cubic.start.x) <= EPSILON {
      if Abs(x - cubic.start.x) <= EPSILON {
        return Some(cubic.end);
      }
      return None;
    }
    var progress := Bisect(cubic, x);
    return Some(CubicPoint(cubic, progress).(x := x));
  }

  method CurveIntersection(geometry: MetricGeometry, x: real) returns (result: Option<Point>)
    ensures result == Intersection(geometry, x)
  {
    hide Crossing, AllCubics;
    NoCubics(geometry.runs);
    for r := 0 to |geometry.runs|
      invariant FirstCrossing(AllCubics(geometry.runs[..r]), x).None?
    {
      var cubics := geometry.runs[r].cubics;
      AllCubicsNext(geometry.runs, r);
      AllCubicsSplit(geometry.runs, r);
      for k := 0 to |cubics|
        invariant FirstCrossing(cubics[..k], x).None?
      {
        FirstCrossingConcat(cubics[..k], cubics[k..], x);
        assert cubics[..k] + cubics[k..] == cubics;
        var crossing := CrossCubic(cubics[k], x);
        if crossing.Some? {
          FirstCrossingConcat(AllCubics(geometry.runs[..r]), cubics + AllCubics(geometry.runs[r + 1..]), x);
          FirstCrossingConcat(cubics, AllCubics(geometry.runs[r + 1..]), x);
          return crossing;
        }
        FirstCrossingConcat(cubics[..k], [cubics[k]], x);
        assert cubics[..k + 1] == cubics[..k] + [cubics[k]];
      }
      assert cubics[..|cubics|] == cubics;
      FirstCrossingConcat(AllCubics(geometry.runs[..r]), cubics, x);
    }
    assert geometry.runs[..|geometry.runs|] == geometry.runs;
    if geometry.currentEndpoint.Some? && Abs(geometry.currentEndpoint.value.x - x) <= EPSILON {
      return geometry.currentEndpoint;
    }
    return None;
  }

  lemma AllCubicsNext(runs: seq<CurveRun>, r: nat)
    requires r < |runs|
    ensures AllCubics(runs[..r + 1]) == AllCubics(runs[..r]) + runs[r].cubics
  {
    assert runs[..r + 1][..r] == runs[..r];
  }

  lemma AllCubicsSplit(runs: seq<CurveRun>, r: nat)
    requires r < |runs|
    ensures AllCubics(runs) == AllCubics(runs[..r]) + (runs[r].cubics + AllCubics(runs[r + 1..]))
  {
    hide AllCubics;
    AllCubicsNext(runs, r);
    AllCubicsConcat(runs[..r + 1], runs[r + 1..]);
    assert runs[..r + 1] + runs[r + 1..] == runs;
    Associate(AllCubics(runs[..r]), runs[r].cubics, AllCubics(runs[r + 1..]));
  }

  lemma Associate<T>(a: seq<T>, b: seq<T>, c: seq<T>)
    ensures a + b + c == a + (b + c)
  {}

  lemma NoCubics(runs: seq<CurveRun>)
    ensures AllCubics(runs[..0]) == []
  {}

  lemma {:induction false} FirstCrossingConcat(c: seq<CubicSegment>, d: seq<CubicSegment>, x: real)
    ensures FirstCrossing(c + d, x) == if FirstCrossing(c, x).Some? then FirstCrossing(c, x) else FirstCrossing(d, x)
  {
    hide Crossing;
    if c == [] {
      assert c + d == d;
    } else {
      assert (c + d)[1..] == c[1..] + d;
      FirstCrossingConcat(c[1..], d, x);
    }
  }

  /**
   * The answer is the first drawn cubic's that has one; there is none exactly when no cubic and no endpoint is near.
   */
  lemma {:induction false} FirstCrossingIsFirst(cubics: seq<CubicSegment>, x: real)
    ensures FirstCrossing(cubics, x).None? <==> forall c :: c in cubics ==> Crossing(c, x).None?
    ensures FirstCrossing(cubics, x).Some? ==>
              exists k :: 0 <= k < |cubics| && FirstCrossing(cubics, x) == Crossing(cubics[k], x) &&
                          forall j :: 0 <= j < k ==> Crossing(cubics[j], x).None?
  {
    hide Crossing;
    if cubics != [] {
      FirstCrossingIsFirst(cubics[1..], x);
      assert cubics == [cubics[0]] + cubics[1..];
      if Crossing(cubics[0], x).None? && FirstCrossing(cubics, x).Some? {
        var rest := cubics[1..];
        var k :| 0 <= k < |rest| && FirstCrossing(rest, x) == Crossing(rest[k], x) &&
                 forall j :: 0 <= j < k ==> Crossing(rest[j], x).None?;
        assert forall j :: 0 <= j < k + 1 ==> Crossing(cubics[j], x).None? by {
          forall j | 0 <= j < k + 1 ensures Crossing(cubics[j], x).None? {
            if j > 0 {
              assert cubics[j] == rest[j - 1];
            }
          }
        }
        assert cubics[k + 1] == rest[k];
      }
    }
  }

  // --- Accuracy -------------------------------------------------------------

  function PowerOfTwo(n: nat): real {
    if n == 0 then 1.0 else 2.0 * PowerOfTwo(n - 1)
  }

  /** A cubic whose abscissa grows linearly with the parameter. */
  predicate LinearRightward(c: CubicSegment) {
    Bezier.AtThirds(c.start.x, c.control1.x, c.control2.x, c.end.x) && c.start.x < c.end.x
  }

  /** The parameter at which the curve really crosses x; the nearer end when x is just outside. */
  function TrueParameter(c: CubicSegment, x: real): real
    requires c.start.x < c.end.x
  {
    Clamp((x - c.start.x) / (c.end.x - c.start.x), 0.0, 1.0)
  }

  lemma AbscissaIsLinear(c: CubicSegment, t: real)
    requires LinearRightward(c)
    ensures CubicPoint(c, t).x == c.start.x + (c.end.x - c.start.x) * t
  {
    hide Bezier.Value;
    Bezier.ThirdsAreLinear(c.start.x, c.control1.x, c.control2.x, c.end.x, t);
  }

  lemma LinearSide(start: real, width: real, x: real, t: real)
    requires width > 0.0
    ensures start + width * t < x <==> t < (x - start) / width
  {
    var u := (x - start) / width;
    assert width * u == x - start;
    if t < u {
      PositiveProduct(width, u - t);
    } else {
      ProductNonNegative(width, t - u);
    }
  }

  lemma PositiveProduct(a: real, b: real)
    requires a > 0.0 && b > 0.0
    ensures a * b > 0.0
  {}

  lemma SideOfMiddle(c: CubicSegment, x: real, t: real)
    requires LinearRightward(c) && 0.0 <= t <= 1.0
    ensures CubicPoint(c, t).x < x ==> t <= TrueParameter(c, x)
    ensures !(CubicPoint(c, t).x < x) ==> TrueParameter(c, x) <= t
  {
    hide CubicPoint;
    AbscissaIsLinear(c, t);
    LinearSide(c.start.x, c.end.x - c.start.x, x, t);
  }

  lemma HalveWidth(width: real, power: real)
    requires width * power == 1.0
    ensures width / 2.0 * (2.0 * power) == 1.0
  {}

  lemma BracketHalves(c: CubicSegment, x: real, n: nat)
    requires n > 0
    ensures Bracket(c, x, n).1 - Bracket(c, x, n).0 == (Bracket(c, x, n - 1).1 - Bracket(c, x, n - 1).0) / 2.0
  {
    hide CubicPoint;
  }

  /** Every iteration halves the bracket. */
  lemma {:induction false} BracketWidth(c: CubicSegment, x: real, n: nat)
    ensures (Bracket(c, x, n).1 - Bracket(c, x, n).0) * PowerOfTwo(n) == 1.0
  {
    hide CubicPoint, Bracket;
    if n == 0 {
      FirstBracket(c, x);
    } else {
      BracketWidth(c, x, n - 1);
      BracketHalves(c, x, n);
      var width, power := Bracket(c, x, n - 1).1 - Bracket(c, x, n - 1).0, PowerOfTwo(n - 1);
      HalveWidth(width, power);
    }
  }

  lemma FirstBracket(c: CubicSegment, x: real)
    ensures Bracket(c, x, 0) == (0.0, 1.0)
  {}

  /** Bisection keeps the crossing bracketed. */
  lemma {:induction false} BracketHolds(c: CubicSegment, x: real, n: nat)
    requires LinearRightward(c)
    ensures var b := Bracket(c, x, n); 0.0 <= b.0 <= TrueParameter(c, x) <= b.1 <= 1.0
  {
    hide CubicPoint, TrueParameter, Bezier.AtThirds;
    if n == 0 {
      TrueParameterInRange(c, x);
    } else {
      BracketHolds(c, x, n - 1);
      var before := Bracket(c, x, n - 1);
      SideOfMiddle(c, x, (before.0 + before.1) / 2.0);
    }
  }

  lemma TrueParameterInRange(c: CubicSegment, x: real)
    requires LinearRightward(c)
    ensures 0.0 <= TrueParameter(c, x) <= 1.0
  {}

  lemma ThirtyTwoHalvings()
    ensures PowerOfTwo(ITERATIONS) == 4294967296.0
  {
    assert PowerOfTwo(8) == 256.0;
    assert PowerOfTwo(16) == 65536.0;
    assert PowerOfTwo(24) == 16777216.0;
  }

  lemma ParameterError(c: CubicSegment, x: real)
    requires LinearRightward(c)
    ensures 0.0 <= BisectionParameter(c, x) <= 1.0
    ensures Abs(BisectionParameter(c, x) - TrueParameter(c, x)) <= 1.0 / 8589934592.0
  {
    hide Bracket, TrueParameter, LinearRightward, PowerOfTwo;
    BracketHolds(c, x, ITERATIONS);
    BracketWidth(c, x, ITERATIONS);
    ThirtyTwoHalvings();
  }

  /** No chord of the curve is steeper than the limit. */
  ghost predicate NoSteeperThan(c: CubicSegment, limit: real) {
    forall t, u :: 0.0 <= t <= u <= 1.0 ==> Abs(CubicPoint(c, u).y - CubicPoint(c, t).y) <= limit * (u - t)
  }

  lemma AlongDistance(p: real, t: real, u: real, limit: real)
    requires 0.0 <= p <= 1.0 && t <= u && 0.0 <= limit
    ensures limit * (Along(p, u) - Along(p, t)) <= limit * (u - t)
  {
    var h := u - t;
    ProductNonNegative(p, h);
    var saved := p * h;
    ProductNonNegative(limit, saved);
    assert Along(p, u) - Along(p, t) == h - saved;
    assert limit * (h - saved) == limit * h - limit * saved;
  }

  lemma SegmentNoSteeper(points: seq<TimedPoint>, i: nat, t: real, u: real)
    requires i + 1 < |points| && 0.0 <= t <= u <= 1.0
    ensures var c := SegmentCubic(points, i);
            Abs(CubicPoint(c, u).y - CubicPoint(c, t).y)
              <= 3.0 * Abs(points[i + 1].point.y - points[i].point.y) * (u - t)
  {
    hide SegmentCubic, Bezier.Value;
    var c := SegmentCubic(points, i);
    SegmentEnds(points, i);
    SegmentIsBoxed(points, i);
    Bezier.BoxedMonotone(c.start.y, c.control1.y, c.control2.y, c.end.y, t, u);
  }

  /** A drawn cubic, cut or not, is nowhere steeper than three times the rise between its two samples. */
  lemma EmittedNoSteeper(points: seq<TimedPoint>, i: nat, cutoff: real)
    requires i + 1 < |points|
    ensures NoSteeperThan(EmittedCubic(points, i, cutoff), 3.0 * Abs(points[i + 1].point.y - points[i].point.y))
  {
    hide SegmentCubic, EmittedCubic, CutParameter, CubicPoint, Along;
    var c := EmittedCubic(points, i, cutoff);
    var p := CutParameter(points, i, cutoff);
    var limit := 3.0 * Abs(points[i + 1].point.y - points[i].point.y);
    CutParameterInRange(points, i, cutoff);
    forall t, u | 0.0 <= t <= u <= 1.0 ensures Abs(CubicPoint(c, u).y - CubicPoint(c, t).y) <= limit * (u - t) {
      EmittedOrdinate(points, i, cutoff, t);
      EmittedOrdinate(points, i, cutoff, u);
      AlongInRange(p, t, u);
      SegmentNoSteeper(points, i, Along(p, t), Along(p, u));
      AlongDistance(p, t, u, limit);
    }
  }

  lemma HeightError(c: CubicSegment, limit: real, s: real, t: real, error: real)
    requires NoSteeperThan(c, limit) && 0.0 <= limit
    requires 0.0 <= s <= 1.0 && 0.0 <= t <= 1.0 && Abs(s - t) <= error
    ensures Abs(CubicPoint(c, s).y - CubicPoint(c, t).y) <= limit * error
  {
    hide CubicPoint;
    if s <= t {
      ProductMonotone(t - s, error, limit);
    } else {
      ProductMonotone(s - t, error, limit);
    }
  }

  lemma WidthError(start: real, width: real, s: real, t: real, error: real, at: real, other: real)
    requires 0.0 <= width && Abs(s - t) <= error
    requires at == start + width * s && other == start + width * t
    ensures Abs(at - other) <= width * error
  {
    assert at - other == width * (s - t);
    if s <= t {
      ProductMonotone(t - s, error, width);
    } else {
      ProductMonotone(s - t, error, width);
    }
  }

  lemma PointError(c: CubicSegment, s: real, t: real, error: real)
    requires LinearRightward(c) && Abs(s - t) <= error
    ensures Abs(CubicPoint(c, s).x - CubicPoint(c, t).x) <= (c.end.x - c.start.x) * error
  {
    hide CubicPoint;
    AbscissaIsLinear(c, s);
    AbscissaIsLinear(c, t);
    WidthError(c.start.x, c.end.x - c.start.x, s, t, error, CubicPoint(c, s).x, CubicPoint(c, t).x);
  }

  lemma PositiveFactor(a: real, w: real)
    requires w > 0.0
    ensures a * w > 0.0 ==> a > 0.0
    ensures a * w < 0.0 ==> a < 0.0
  {}

  lemma ClampedPosition(start: real, width: real, x: real)
    requires width > 0.0
    ensures start + width * Clamp((x - start) / width, 0.0, 1.0) == Clamp(x, start, start + width)
  {
    var u := (x - start) / width;
    assert u * width == x - start;
    PositiveFactor(u, width);
    var beyond := u - 1.0;
    assert beyond * width == x - (start + width);
    PositiveFactor(beyond, width);
  }

  lemma TrueAbscissa(c: CubicSegment, x: real)
    requires LinearRightward(c)
    ensures CubicPoint(c, TrueParameter(c, x)).x == Clamp(x, c.start.x, c.end.x)
  {
    hide CubicPoint;
    AbscissaIsLinear(c, TrueParameter(c, x));
    ClampedPosition(c.start.x, c.end.x - c.start.x, x);
  }

  /**
   * On a cubic the curve builder draws between ordered samples, the marker height is within limit / 2^33 of the
   * curve's true height at the query (limit being three times the rise between the samples), and the bisected point
   * is within dx / 2^33 of the nearest abscissa the cubic reaches.
   */
  lemma IntersectionAccuracy(c: CubicSegment, x: real, limit: real)
    requires LinearRightward(c) && c.end.x - c.start.x > EPSILON && NoSteeperThan(c, limit) && 0.0 <= limit
    requires c.start.x - EPSILON <= x <= c.end.x + EPSILON
    ensures Crossing(c, x).Some? && Crossing(c, x).value.x == x
    ensures Abs(Crossing(c, x).value.y - CubicPoint(c, TrueParameter(c, x)).y) <= limit * (1.0 / 8589934592.0)
    ensures CubicPoint(c, TrueParameter(c, x)).x == Clamp(x, c.start.x, c.end.x)
    ensures Abs(CubicPoint(c, BisectionParameter(c, x)).x - Clamp(x, c.start.x, c.end.x)) <=
            (c.end.x - c.start.x) * (1.0 / 8589934592.0)
  {
    hide CubicPoint, BisectionParameter, TrueParameter, NoSteeperThan;
    var s, t := BisectionParameter(c, x), TrueParameter(c, x);
    ParameterError(c, x);
    TrueParameterInRange(c, x);
    HeightError(c, limit, s, t, 1.0 / 8589934592.0);
    PointError(c, s, t, 1.0 / 8589934592.0);
    TrueAbscissa(c, x);
  }

  /** The two requirements of IntersectionAccuracy hold of every drawn segment that takes time, also after a cut. */
  lemma DrawnSegmentIsLinear(points: seq<TimedPoint>, i: nat, cutoff: real, scale: real)
    requires Plotted(points, cutoff, scale)
    requires i + 1 < |points| && points[i].time < points[i + 1].time && cutoff < points[i + 1].time
    ensures LinearRightward(EmittedCubic(points, i, cutoff))
    ensures NoSteeperThan(EmittedCubic(points, i, cutoff), 3.0 * Abs(points[i + 1].point.y - points[i].point.y))
  {
    hide SegmentCubic, EmittedCubic, CutParameter, CutCubic, NoSteeperThan;
    EmittedNoSteeper(points, i, cutoff);
    CorrectionsAreNoOps(points, i, cutoff, scale);
    CutStart(points, i, cutoff, scale);
    CutThirds(points, i, cutoff);
    PositiveProduct(scale, points[i + 1].time - cutoff);
    PositiveProduct(scale, points[i + 1].time - points[i].time);
  }

  // --- When the marker is hidden ----------------------------------------------

  /** The abscissa is on the drawn part of the pair (i - 1, i), give or take the tolerance. */
  predicate Meets(samples: seq<Sample>, view: View, i: nat, x: real)
    requires 0 < i < |samples|
  {
    var low := Max(Abscissa(view, samples[i - 1].elapsedMilliseconds), 0.0);
    var high := Abscissa(view, samples[i].elapsedMilliseconds);
    if high - low <= EPSILON then Abs(x - low) <= EPSILON else low - EPSILON <= x <= high + EPSILON
  }

  predicate MeetsEndpoint(samples: seq<Sample>, view: View, x: real) {
    && samples != [] && Present(samples, view, |samples| - 1)
    && Abs(Abscissa(view, samples[|samples| - 1].elapsedMilliseconds) - x) <= EPSILON
  }

  lemma PairSpan(samples: seq<Sample>, view: View, i: nat, c: CubicSegment)
    requires OrderedTimes(samples) && view.width > 0.0
    requires VisiblePair(samples, view, i) && DrawsPair(c, samples, view, i)
    ensures c.start.x == Max(Abscissa(view, samples[i - 1].elapsedMilliseconds), 0.0)
    ensures c.end.x == Abscissa(view, samples[i].elapsedMilliseconds) && c.start.x <= c.end.x
  {
    hide EmittedCubic, Abscissa, Ordinate, Filtered, CutParameter, SegmentCubic, Along, CubicPoint;
    var a: nat, n: nat :| IsRun(samples, view, a, n) && a < i < n &&
      c == EmittedCubic(RunPoints(samples, view, a, n), i - 1 - a, view.Cutoff());
    DrawnCubicIsExact(samples, view, a, n, i, 0.0);
    AbscissasRise(view, samples[i - 1].elapsedMilliseconds, samples[i].elapsedMilliseconds);
    AbscissaInside(view, samples[i].elapsedMilliseconds);
  }

  lemma AbscissasRise(view: View, s: int, t: int)
    requires view.width > 0.0 && s <= t
    ensures Abscissa(view, s) <= Abscissa(view, t)
  {
    var p, q := (s as real - view.Cutoff()) / WINDOW_MILLISECONDS, (t as real - view.Cutoff()) / WINDOW_MILLISECONDS;
    assert p <= q;
    ProductMonotone(p, q, view.width);
  }

  lemma AbscissaInside(view: View, t: int)
    requires view.width > 0.0 && view.Cutoff() <= t as real
    ensures Abscissa(view, t) >= 0.0
  {
    ProductNonNegative(view.width, (t as real - view.Cutoff()) / WINDOW_MILLISECONDS);
  }

  lemma PairAnswers(samples: seq<Sample>, view: View, i: nat, c: CubicSegment, x: real)
    requires OrderedTimes(samples) && view.width > 0.0
    requires VisiblePair(samples, view, i) && DrawsPair(c, samples, view, i)
    ensures Crossing(c, x).Some? <==> Meets(samples, view, i, x)
  {
    hide DrawsPair, VisiblePair, CubicPoint, BisectionParameter, Abscissa;
    PairSpan(samples, view, i, c);
  }

  /**
   * On ordered samples the marker is hidden exactly when its abscissa is on no drawn pair of neighbouring samples and
   * not at a present newest sample: in a gap, or outside the data.
   */
  lemma MarkerIsHidden(samples: seq<Sample>, view: View, x: real)
    requires OrderedTimes(samples) && view.width > 0.0
    ensures Intersection(Geometry(samples, view), x).None? <==>
      && (forall i :: 0 < i < |samples| && VisiblePair(samples, view, i) ==> !Meets(samples, view, i, x))
      && !MeetsEndpoint(samples, view, x)
  {
    hide Crossing, FirstCrossing, Runs, AllCubics, Meets, VisiblePair, DrawsPair, PlotPoint;
    CubicsAreVisiblePairs(samples, view);
    var cubics, pairs := AllCubics(Runs(samples, view)), VisiblePairs(samples, view, 0, |samples|);
    FirstCrossingIsFirst(cubics, x);
    forall k | 0 <= k < |cubics|
      ensures PairInRange(samples, view, pairs[k])
        && (Crossing(cubics[k], x).Some? <==> Meets(samples, view, pairs[k], x))
    {
      PairsAreVisible(samples, view, 0, |samples|, k);
      VisibleIsInRange(samples, view, pairs[k]);
      PairAnswers(samples, view, pairs[k], cubics[k], x);
    }
    forall i | 0 < i < |samples| && VisiblePair(samples, view, i)
      ensures exists k :: 0 <= k < |cubics| && pairs[k] == i
    {
      VisiblePairIsListed(samples, view, 0, |samples|, i);
    }
    EndpointIs(samples, view, x);
    NothingToCross(view, x);
  }

  predicate PairInRange(samples: seq<Sample>, view: View, i: nat) {
    0 < i < |samples| && VisiblePair(samples, view, i)
  }

  lemma VisibleIsInRange(samples: seq<Sample>, view: View, i: nat)
    requires VisiblePair(samples, view, i)
    ensures PairInRange(samples, view, i)
  {
  }

  lemma NothingToCross(view: View, x: real)
    ensures Intersection(Geometry([], view), x).None?
  {
  }

  lemma EndpointIs(samples: seq<Sample>, view: View, x: real)
    ensures var end := Geometry(samples, view).currentEndpoint;
      (end.Some? && Abs(end.value.x - x) <= EPSILON) <==> MeetsEndpoint(samples, view, x)
  {
    hide Abscissa, Ordinate, Filtered, Runs;
  }
}
