/** Where the marker ends up: at the true newest value, on the later sample of a step, or at a lone newest sample. */
module CurveMarker {
  import opened Wrappers
  import opened Reals
  import opened CurveGeometry
  import opened CurveShape
  import opened CurveBuilder
  import opened CurveTheorems
  import opened CurveLookup

  lemma PairEnds(samples: seq<Sample>, view: View, i: nat, c: CubicSegment)
    requires OrderedTimes(samples) && view.width > 0.0
    requires VisiblePair(samples, view, i) && DrawsPair(c, samples, view, i)
    ensures c.end == PlotPoint(samples, view, i).point
  {
    hide EmittedCubic, PlotPoint, CutParameter, SegmentCubic, Along, CubicPoint;
    var a: nat, n: nat :| IsRun(samples, view, a, n) && a < i < n &&
      c == EmittedCubic(RunPoints(samples, view, a, n), i - 1 - a, view.Cutoff());
    DrawnCubicIsExact(samples, view, a, n, i, 0.0);
    assert RunPoints(samples, view, a, n)[i - a] == PlotPoint(samples, view, a + (i - a));
  }

  /** Where a drawn pair takes no width, as with repeated timestamps, the answer is its later sample. */
  lemma StepAnswersLater(samples: seq<Sample>, view: View, i: nat, c: CubicSegment, x: real)
    requires OrderedTimes(samples) && view.width > 0.0
    requires VisiblePair(samples, view, i) && DrawsPair(c, samples, view, i) && c.end.x - c.start.x <= EPSILON
    ensures Crossing(c, x).Some? ==> Crossing(c, x).value == PlotPoint(samples, view, i).point
  {
    hide PlotPoint, CubicPoint, BisectionParameter, DrawsPair, VisiblePair;
    PairEnds(samples, view, i, c);
    PairSpan(samples, view, i, c);
  }

  lemma PairIsSmooth(samples: seq<Sample>, view: View, i: nat, c: CubicSegment)
    requires OrderedTimes(samples) && view.width > 0.0
    requires VisiblePair(samples, view, i) && DrawsPair(c, samples, view, i) && c.start.x < c.end.x
    ensures var rise := PlotPoint(samples, view, i).point.y - PlotPoint(samples, view, i - 1).point.y;
      LinearRightward(c) && NoSteeperThan(c, 3.0 * Abs(rise))
  {
    hide EmittedCubic, PlotPoint, CutParameter, SegmentCubic, Along, CubicPoint, LinearRightward, NoSteeperThan, Abs;
    hide Abscissa;
    PairSpan(samples, view, i, c);
    var a: nat, n: nat :| IsRun(samples, view, a, n) && a < i < n &&
      c == EmittedCubic(RunPoints(samples, view, a, n), i - 1 - a, view.Cutoff());
    var points := RunPoints(samples, view, a, n);
    RunIsPlotted(samples, view, a, n);
    assert points[i - 1 - a] == PlotPoint(samples, view, a + (i - 1 - a));
    assert points[i - a] == PlotPoint(samples, view, a + (i - a));
    TakesTime(samples, view, i);
    DrawnSegmentIsLinear(points, i - 1 - a, view.Cutoff(), view.width / WINDOW_MILLISECONDS);
  }

  lemma TakesTime(samples: seq<Sample>, view: View, i: nat)
    requires OrderedTimes(samples) && view.width > 0.0 && VisiblePair(samples, view, i)
    requires Max(Abscissa(view, samples[i - 1].elapsedMilliseconds), 0.0)
      < Abscissa(view, samples[i].elapsedMilliseconds)
    ensures PlotPoint(samples, view, i - 1).time < PlotPoint(samples, view, i).time
    ensures view.Cutoff() < PlotPoint(samples, view, i).time
  {
    hide Filtered, Ordinate, Abscissa;
    LaterIsRight(view, samples[i - 1].elapsedMilliseconds, samples[i].elapsedMilliseconds);
    CutoffIsAtZero(view, samples[i].elapsedMilliseconds);
  }

  lemma LaterIsRight(view: View, s: int, t: int)
    requires s <= t
    ensures Abscissa(view, s) < Abscissa(view, t) ==> s < t
  {
  }

  lemma CutoffIsAtZero(view: View, t: int)
    ensures Abscissa(view, t) != 0.0 ==> t as real != view.Cutoff()
  {
  }

  /** Only the last pair reaches the newest sample when it is wider than the tolerance. */
  lemma OthersEndBefore(samples: seq<Sample>, view: View, i: nat, c: CubicSegment)
    requires OrderedTimes(samples) && view.width > 0.0 && i + 1 < |samples|
    requires VisiblePair(samples, view, i) && DrawsPair(c, samples, view, i)
    requires var last := |samples| - 1;
      Abscissa(view, samples[last].elapsedMilliseconds)
      - Max(Abscissa(view, samples[last - 1].elapsedMilliseconds), 0.0) > EPSILON
    ensures Crossing(c, Abscissa(view, samples[|samples| - 1].elapsedMilliseconds)).None?
  {
    hide CubicPoint, BisectionParameter, DrawsPair, VisiblePair, Abscissa;
    assert i < |samples| - 1;
    PairSpan(samples, view, i, c);
    AbscissasRise(view, samples[i].elapsedMilliseconds, samples[|samples| - 2].elapsedMilliseconds);
  }

  /**
   * At the newest sample the marker is at its true value: the last drawn pair answers, within three times its rise
   * over 2^33, when the pair is present and wider than the tolerance.
   */
  lemma NewestIsReached(samples: seq<Sample>, view: View)
    requires OrderedTimes(samples) && view.width > 0.0 && view.height > 0.0 && |samples| > 1
    requires VisiblePair(samples, view, |samples| - 1)
    requires var last := |samples| - 1;
      Abscissa(view, samples[last].elapsedMilliseconds)
      - Max(Abscissa(view, samples[last - 1].elapsedMilliseconds), 0.0) > EPSILON
    ensures var last := |samples| - 1;
      var newest, answer := PlotPoint(samples, view, last).point,
                            Intersection(Geometry(samples, view), Abscissa(view, samples[last].elapsedMilliseconds));
      && answer.Some? && answer.value.x == newest.x
      && Abs(answer.value.y - newest.y)
         <= 3.0 * Abs(newest.y - PlotPoint(samples, view, last - 1).point.y) * (1.0 / 8589934592.0)
  {
    hide Crossing, FirstCrossing, Runs, AllCubics, VisiblePair, DrawsPair, PlotPoint, Abscissa, NoSteeperThan;
    hide LinearRightward, TrueParameter, CubicPoint;
    var last := |samples| - 1;
    var x := Abscissa(view, samples[last].elapsedMilliseconds);
    CubicsAreVisiblePairs(samples, view);
    var cubics, pairs := AllCubics(Runs(samples, view)), VisiblePairs(samples, view, 0, |samples|);
    FirstCrossingIsFirst(cubics, x);
    VisiblePairIsListed(samples, view, 0, |samples|, last);
    var at :| 0 <= at < |pairs| && pairs[at] == last;
    forall k | 0 <= k < |cubics| && pairs[k] != last ensures Crossing(cubics[k], x).None? {
      PairsAreVisible(samples, view, 0, |samples|, k);
      VisibleIsInRange(samples, view, pairs[k]);
      OthersEndBefore(samples, view, pairs[k], cubics[k]);
    }
    LastAnswers(samples, view, cubics[at]);
    assert cubics[at] in cubics;
    var first :| 0 <= first < |cubics| && FirstCrossing(cubics, x) == Crossing(cubics[first], x);
    assert Crossing(cubics[first], x).Some?;
    LastAnswers(samples, view, cubics[first]);
  }

  lemma LastAnswers(samples: seq<Sample>, view: View, c: CubicSegment)
    requires OrderedTimes(samples) && view.width > 0.0 && |samples| > 1
    requires VisiblePair(samples, view, |samples| - 1) && DrawsPair(c, samples, view, |samples| - 1)
    requires var last := |samples| - 1;
      Abscissa(view, samples[last].elapsedMilliseconds)
      - Max(Abscissa(view, samples[last - 1].elapsedMilliseconds), 0.0) > EPSILON
    ensures var last := |samples| - 1;
      var newest, answer := PlotPoint(samples, view, last).point,
                            Crossing(c, Abscissa(view, samples[last].elapsedMilliseconds));
      && answer.Some? && answer.value.x == newest.x
      && Abs(answer.value.y - newest.y)
         <= 3.0 * Abs(newest.y - PlotPoint(samples, view, last - 1).point.y) * (1.0 / 8589934592.0)
  {
    hide Crossing, DrawsPair, PlotPoint, Abscissa, NoSteeperThan, LinearRightward, CubicPoint;
    var last := |samples| - 1;
    var x := Abscissa(view, samples[last].elapsedMilliseconds);
    PairSpan(samples, view, last, c);
    PairEnds(samples, view, last, c);
    PairIsSmooth(samples, view, last, c);
    var limit := 3.0 * Abs(PlotPoint(samples, view, last).point.y - PlotPoint(samples, view, last - 1).point.y);
    IntersectionAccuracy(c, x, limit);
    EndIsAtOne(c);
    CubicEnds(c);
  }

  lemma EndIsAtOne(c: CubicSegment)
    requires c.start.x < c.end.x
    ensures TrueParameter(c, c.end.x) == 1.0
  {
    Whole(c.end.x - c.start.x);
  }

  lemma Whole(width: real)
    requires width > 0.0
    ensures width / width == 1.0
  {
  }

  /** A newest sample that no drawn pair reaches answers for itself. */
  lemma LoneNewestAnswers(samples: seq<Sample>, view: View)
    requires OrderedTimes(samples) && view.width > 0.0 && view.height > 0.0 && samples != []
    requires Present(samples, view, |samples| - 1)
    requires var x := Abscissa(view, samples[|samples| - 1].elapsedMilliseconds);
      forall i :: 0 < i < |samples| && VisiblePair(samples, view, i) ==> !Meets(samples, view, i, x)
    ensures var last := |samples| - 1;
      Intersection(Geometry(samples, view), Abscissa(view, samples[last].elapsedMilliseconds))
      == Some(PlotPoint(samples, view, last).point)
  {
    hide Crossing, FirstCrossing, Runs, AllCubics, Meets, VisiblePair, DrawsPair, Abscissa, Filtered, Ordinate;
    var x := Abscissa(view, samples[|samples| - 1].elapsedMilliseconds);
    CubicsAreVisiblePairs(samples, view);
    var cubics, pairs := AllCubics(Runs(samples, view)), VisiblePairs(samples, view, 0, |samples|);
    FirstCrossingIsFirst(cubics, x);
    forall k | 0 <= k < |cubics| ensures Crossing(cubics[k], x).None? {
      PairsAreVisible(samples, view, 0, |samples|, k);
      VisibleIsInRange(samples, view, pairs[k]);
      PairAnswers(samples, view, pairs[k], cubics[k], x);
    }
  }
}
