/**
 * What is drawn from the pruned history, compared with what the whole history would give: the same pairs of samples,
 * and, in a plot with any height, the identical cubic exactly when the pair's run begins behind what was dropped, or
 * the filter has caught up at its earlier sample and, in case that is the first sample kept and the pair more than a
 * straight line or a point, both its tangents agree.
 */
module HistoryDrawn {
  import opened Wrappers
  import opened Reals
  import opened CurveGeometry
  import opened CurveShape
  import opened CurveBuilder
  import opened CurveEquality
  import opened CurveTheorems
  import opened HistoryWindow

  lemma DroppedPairIsInvisible(seen: seq<Sample>, dropped: nat, retained: seq<Sample>, samples: seq<Sample>, w: Window,
                               view: View, i: nat)
    requires Shown(seen, dropped, retained, samples, w) && view.windowEnd == w.current && i <= dropped
    ensures !VisiblePair(seen, view, i)
  {
    hide Shown;
    if i > 0 {
      DroppedIsOld(seen, dropped, retained, samples, w, i - 1);
    }
  }

  lemma KeptPairIsTheSame(seen: seq<Sample>, dropped: nat, kept: seq<Sample>, view: View, i: nat)
    requires dropped <= |seen| && seen[dropped..] == kept
    ensures 0 < i < |kept| ==> (VisiblePair(kept, view, i) <==> VisiblePair(seen, view, dropped + i))
  {
    if 0 < i < |kept| {
      assert kept[i] == seen[dropped + i] && kept[i - 1] == seen[dropped + i - 1];
    }
  }

  function Shifted(pairs: seq<nat>, offset: nat): (r: seq<nat>)
    ensures |r| == |pairs| && forall k :: 0 <= k < |r| ==> r[k] == pairs[k] + offset
  {
    seq(|pairs|, k requires 0 <= k < |pairs| => pairs[k] + offset)
  }

  lemma {:induction false} SamePairs(seen: seq<Sample>, dropped: nat, retained: seq<Sample>, samples: seq<Sample>,
                                     w: Window, view: View, high: nat)
    requires Shown(seen, dropped, retained, samples, w) && view.windowEnd == w.current && high <= |seen|
    ensures high <= dropped ==> VisiblePairs(seen, view, 0, high) == []
    ensures high > dropped ==>
      VisiblePairs(seen, view, 0, high) == Shifted(VisiblePairs(retained + samples, view, 0, high - dropped), dropped)
    decreases high
  {
    hide Shown, VisiblePair;
    if high > 0 {
      SamePairs(seen, dropped, retained, samples, w, view, high - 1);
      if high - 1 <= dropped {
        DroppedPairIsInvisible(seen, dropped, retained, samples, w, view, high - 1);
        if high > dropped {
          FirstIsNoPair(retained + samples, view);
        }
      } else {
        ShownIsSuffix(seen, dropped, retained, samples, w);
        KeptPairIsTheSame(seen, dropped, retained + samples, view, high - 1 - dropped);
      }
    }
  }

  lemma ShownIsSuffix(seen: seq<Sample>, dropped: nat, retained: seq<Sample>, samples: seq<Sample>, w: Window)
    requires Shown(seen, dropped, retained, samples, w)
    ensures dropped <= |seen| && seen[dropped..] == retained + samples
  {
  }

  lemma FirstIsNoPair(samples: seq<Sample>, view: View)
    ensures VisiblePairs(samples, view, 0, 1) == []
  {
    assert VisiblePairs(samples, view, 0, 0) == [];
  }

  /**
   * From the pruned history come as many cubics as the whole history has visible pairs, each for the same two samples
   * and in the same order.
   */
  lemma NothingVisibleIsPruned(seen: seq<Sample>, dropped: nat, retained: seq<Sample>, samples: seq<Sample>, w: Window,
                               view: View)
    requires Shown(seen, dropped, retained, samples, w) && view.windowEnd == w.current
    ensures var kept := retained + samples;
      var pairs := VisiblePairs(kept, view, 0, |kept|);
      && Draw(AllCubics(Runs(kept, view)), kept, view, pairs)
      && VisiblePairs(seen, view, 0, |seen|) == Shifted(pairs, dropped)
  {
    hide Shown, VisiblePair, Draw, AllCubics, Runs;
    CubicsAreVisiblePairs(retained + samples, view);
    ShownIsSuffix(seen, dropped, retained, samples, w);
    SamePairs(seen, dropped, retained, samples, w, view, |seen|);
  }

  // --- Every pair has one cubic ---------------------------------------------

  lemma {:induction false} RunStart(samples: seq<Sample>, view: View, a: nat, n: nat, i: nat)
    requires IsRun(samples, view, a, n) && a <= i <= n
    ensures GapStart(samples, view, i) == a
  {
    if a < i {
      RunStart(samples, view, a, n, i - 1);
    }
  }

  /** Where the uninterrupted stretch of present samples from i on ends. */
  function GapEnd(samples: seq<Sample>, view: View, i: nat): (n: nat)
    requires i <= |samples|
    ensures AllPresent(samples, view, i, n)
    decreases |samples| - i
  {
    if i == |samples| || !Present(samples, view, i) then i else GapEnd(samples, view, i + 1)
  }

  lemma {:induction false} RunEnd(samples: seq<Sample>, view: View, a: nat, n: nat, i: nat)
    requires IsRun(samples, view, a, n) && a <= i <= n
    ensures GapEnd(samples, view, i) == n
    decreases n - i
  {
    if i < n {
      RunEnd(samples, view, a, n, i + 1);
    }
  }

  /** The cubic of the pair (i - 1, i) in the run [a, n). */
  function PairCubic(samples: seq<Sample>, view: View, a: nat, n: nat, i: nat): CubicSegment
    requires AllPresent(samples, view, a, n) && a < i < n
  {
    EmittedCubic(RunPoints(samples, view, a, n), i - 1 - a, view.Cutoff())
  }

  /** A pair draws the cubic of the one run it stands in. */
  lemma PairDrawsOneCubic(samples: seq<Sample>, view: View, a: nat, n: nat, i: nat, c: CubicSegment)
    requires IsRun(samples, view, a, n) && a < i < n
    ensures DrawsPair(c, samples, view, i) <==> c == PairCubic(samples, view, a, n, i)
  {
    hide EmittedCubic, RunPoints;
    if DrawsPair(c, samples, view, i) {
      var b: nat, m: nat :| IsRun(samples, view, b, m) && b < i < m &&
        c == EmittedCubic(RunPoints(samples, view, b, m), i - 1 - b, view.Cutoff());
      RunStart(samples, view, a, n, i);
      RunStart(samples, view, b, m, i);
      RunEnd(samples, view, a, n, i);
      RunEnd(samples, view, b, m, i);
    }
  }

  lemma RunAround(samples: seq<Sample>, view: View, i: nat) returns (a: nat, n: nat)
    requires VisiblePair(samples, view, i)
    ensures IsRun(samples, view, a, n) && a < i < n && a == GapStart(samples, view, i)
  {
    a := GapStart(samples, view, i);
    n := i;
    while n < |samples| && Present(samples, view, n)
      invariant i <= n <= |samples| && AllPresent(samples, view, a, n)
    {
      n := n + 1;
    }
  }

  // --- Behind a gap nothing changes -----------------------------------------

  lemma SamePresence(seen: seq<Sample>, dropped: nat, kept: seq<Sample>, view: View)
    requires dropped <= |seen| && seen[dropped..] == kept
    ensures forall k :: 0 <= k < |kept| ==> kept[k] == seen[dropped + k]
    ensures forall k :: 0 <= k < |kept| ==> Present(kept, view, k) == Present(seen, view, dropped + k)
  {
  }

  lemma {:induction false} SameFilter(seen: seq<Sample>, dropped: nat, kept: seq<Sample>, view: View, a: nat, i: nat)
    requires dropped <= |seen| && seen[dropped..] == kept && dropped <= a <= i < |seen|
    requires AllPresent(seen, view, a, i + 1) && (a == 0 || !Present(seen, view, a - 1))
    ensures Present(kept, view, i - dropped) && Filtered(kept, view, i - dropped) == Filtered(seen, view, i)
  {
    hide FilterRatio;
    assert kept[i - dropped] == seen[i] && Present(seen, view, i);
    if a < i {
      SameFilter(seen, dropped, kept, view, a, i - 1);
    } else if a > dropped {
      assert kept[a - 1 - dropped] == seen[a - 1];
    }
  }

  lemma SameRun(seen: seq<Sample>, dropped: nat, kept: seq<Sample>, view: View, a: nat, n: nat)
    requires dropped <= |seen| && seen[dropped..] == kept && dropped <= a && IsRun(seen, view, a, n)
    ensures IsRun(kept, view, a - dropped, n - dropped)
    ensures RunPoints(kept, view, a - dropped, n - dropped) == RunPoints(seen, view, a, n)
  {
    hide Filtered, Ordinate, Abscissa;
    SamePresence(seen, dropped, kept, view);
    assert AllPresent(kept, view, a - dropped, n - dropped) by {
      forall k | a - dropped <= k < n - dropped ensures Present(kept, view, k) {
        assert Present(seen, view, dropped + k);
      }
    }
    var p, q := RunPoints(kept, view, a - dropped, n - dropped), RunPoints(seen, view, a, n);
    forall k | 0 <= k < n - a ensures p[k] == q[k] {
      SameFilter(seen, dropped, kept, view, a, a + k);
      assert p[k] == PlotPoint(kept, view, a - dropped + k);
    }
  }

  /** A pair whose run begins behind what was dropped is drawn with the identical cubic. */
  lemma SameCubicBehindGap(seen: seq<Sample>, dropped: nat, kept: seq<Sample>, view: View, i: nat, c: CubicSegment)
    requires dropped <= |seen| && seen[dropped..] == kept && VisiblePair(seen, view, i)
    requires GapStart(seen, view, i) >= dropped
    ensures DrawsPair(c, kept, view, i - dropped) <==> DrawsPair(c, seen, view, i)
  {
    hide EmittedCubic, RunPoints;
    var a, n := RunAround(seen, view, i);
    SameRun(seen, dropped, kept, view, a, n);
    PairDrawsOneCubic(seen, view, a, n, i, c);
    PairDrawsOneCubic(kept, view, a - dropped, n - dropped, i - dropped, c);
  }

  // --- A run that was cut -----------------------------------------------------

  /** The whole history's filter is where the pruned one restarts, or both have restarted since at a repeated time. */
  predicate CaughtUp(seen: seq<Sample>, view: View, dropped: nat, i: nat)
    requires dropped <= i < |seen| && AllPresent(seen, view, dropped, i + 1)
  {
    || Filtered(seen, view, dropped).filtered == Raw(seen, view, dropped)
    || exists k :: dropped < k <= i && seen[k].elapsedMilliseconds <= seen[k - 1].elapsedMilliseconds
  }

  /** In a run that was cut the filtered values agree exactly when the filter has caught up. */
  lemma {:induction false} FilterAgrees(seen: seq<Sample>, dropped: nat, kept: seq<Sample>, view: View, i: nat)
    requires dropped <= i < |seen| && seen[dropped..] == kept && AllPresent(seen, view, dropped, i + 1)
    ensures Present(kept, view, i - dropped)
    ensures Filtered(kept, view, i - dropped).filtered == Filtered(seen, view, i).filtered
      <==> CaughtUp(seen, view, dropped, i)
  {
    hide FilterRatio, Filtered;
    assert kept[i - dropped] == seen[i];
    if dropped == i {
      FilterRestarts(kept, view);
    } else {
      assert kept[i - 1 - dropped] == seen[i - 1];
      assert AllPresent(seen, view, dropped, i);
      FilterAgrees(seen, dropped, kept, view, i - 1);
      FilterAdvances(seen, view, i);
      FilterAdvances(kept, view, i - dropped);
      StepAgrees(Filtered(kept, view, i - 1 - dropped), Filtered(seen, view, i - 1), Raw(seen, view, i),
                 seen[i].elapsedMilliseconds, view.metric, view.decay);
      CaughtUpNext(seen, view, dropped, i);
    }
  }

  lemma CaughtUpNext(seen: seq<Sample>, view: View, dropped: nat, i: nat)
    requires dropped < i < |seen| && AllPresent(seen, view, dropped, i + 1)
    ensures CaughtUp(seen, view, dropped, i) <==>
      CaughtUp(seen, view, dropped, i - 1) || seen[i].elapsedMilliseconds <= seen[i - 1].elapsedMilliseconds
  {
    hide Filtered, Raw;
  }

  lemma FilterRestarts(samples: seq<Sample>, view: View)
    requires samples != [] && Present(samples, view, 0)
    ensures Filtered(samples, view, 0)
         == FilterState(Raw(samples, view, 0), Raw(samples, view, 0), samples[0].elapsedMilliseconds)
  {
  }

  lemma FilterAdvances(samples: seq<Sample>, view: View, i: nat)
    requires 0 < i < |samples| && Present(samples, view, i - 1) && Present(samples, view, i)
    ensures Filtered(samples, view, i) ==
      FilterRatio(Raw(samples, view, i), samples[i].elapsedMilliseconds, view.metric,
                  Some(Filtered(samples, view, i - 1)), view.decay)
    ensures Filtered(samples, view, i - 1).raw == Raw(samples, view, i - 1)
    ensures Filtered(samples, view, i - 1).elapsedMilliseconds == samples[i - 1].elapsedMilliseconds
  {
  }

  /** One step of the filter from two states that differ at most in the filtered value. */
  lemma StepAgrees(p: FilterState, q: FilterState, raw: real, elapsed: int, metric: Metric, decay: Decay)
    requires p.raw == q.raw && p.elapsedMilliseconds == q.elapsedMilliseconds
    ensures FilterRatio(raw, elapsed, metric, Some(p), decay).filtered
        == FilterRatio(raw, elapsed, metric, Some(q), decay).filtered
      <==> p.filtered == q.filtered || elapsed <= p.elapsedMilliseconds
  {
    hide TimeConstant;
    var delta := elapsed - p.elapsedMilliseconds;
    if delta > 0 {
      var constant := TimeConstant(metric, Abs(raw - p.raw));
      var seconds := delta as real / 1000.0;
      PositiveQuotient(seconds, constant);
      var d := decay(seconds / constant);
      MixInjective(p.filtered, q.filtered, raw, d);
    }
  }

  lemma PositiveQuotient(a: real, b: real)
    requires a > 0.0 && b > 0.0
    ensures a / b > 0.0
  {
  }

  lemma MixInjective(p: real, q: real, raw: real, d: real)
    requires d > 0.0
    ensures p + (raw - p) * (1.0 - d) == q + (raw - q) * (1.0 - d) <==> p == q
  {
    assert p + (raw - p) * (1.0 - d) - (q + (raw - q) * (1.0 - d)) == (p - q) * d;
    if p != q {
      NonZeroProduct(p - q, d);
    }
  }

  /** The plotted heights agree exactly when the filtered values do, in a plot with any height to use. */
  lemma PointAgrees(seen: seq<Sample>, dropped: nat, kept: seq<Sample>, view: View, i: nat)
    requires dropped <= i < |seen| && seen[dropped..] == kept && AllPresent(seen, view, dropped, i + 1)
    ensures Present(kept, view, i - dropped)
    ensures CaughtUp(seen, view, dropped, i) ==> PlotPoint(kept, view, i - dropped) == PlotPoint(seen, view, i)
    ensures view.UsableHeight() > 0.0 ==>
      (PlotPoint(kept, view, i - dropped).point.y == PlotPoint(seen, view, i).point.y <==>
        CaughtUp(seen, view, dropped, i))
  {
    hide Filtered, Abscissa, CaughtUp;
    FilterAgrees(seen, dropped, kept, view, i);
    assert kept[i - dropped] == seen[i];
    var h, p, q := view.UsableHeight(), Filtered(kept, view, i - dropped).filtered, Filtered(seen, view, i).filtered;
    if h > 0.0 && p != q {
      assert h * (1.0 - p) - h * (1.0 - q) == (q - p) * h;
      NonZeroProduct(q - p, h);
    }
  }

  lemma CutRun(seen: seq<Sample>, dropped: nat, kept: seq<Sample>, view: View, a: nat, n: nat)
    requires a <= dropped <= |seen| && seen[dropped..] == kept && dropped < n && IsRun(seen, view, a, n)
    ensures IsRun(kept, view, 0, n - dropped) && AllPresent(seen, view, dropped, n)
  {
    SamePresence(seen, dropped, kept, view);
  }

  // --- When a pair of a cut run is drawn with the identical cubic --------------------

  /** The tangent at a sample in its run. */
  function TangentAt(samples: seq<Sample>, view: View, i: nat): real
    requires i < |samples| && Present(samples, view, i)
  {
    var a := GapStart(samples, view, i);
    Tangent(RunPoints(samples, view, a, GapEnd(samples, view, i)), i - a)
  }

  lemma TangentInRun(samples: seq<Sample>, view: View, a: nat, n: nat, i: nat)
    requires IsRun(samples, view, a, n) && a <= i < n
    ensures TangentAt(samples, view, i) == Tangent(RunPoints(samples, view, a, n), i - a)
  {
    hide Tangent, RunPoints;
    RunStart(samples, view, a, n, i);
    RunEnd(samples, view, a, n, i);
  }

  /**
   * The first two samples kept are joined by a straight line, or by a point at the left edge, or with equal tangents.
   */
  predicate FirstPairAgrees(seen: seq<Sample>, view: View, dropped: nat)
    requires dropped + 1 < |seen| && Present(seen, view, dropped) && Present(seen, view, dropped + 1)
  {
    var kept := seen[dropped..];
    || seen[dropped + 1].elapsedMilliseconds <= seen[dropped].elapsedMilliseconds
    || seen[dropped + 1].elapsedMilliseconds as real == view.Cutoff()
    || (TangentAt(kept, view, 0) == TangentAt(seen, view, dropped)
        && TangentAt(kept, view, 1) == TangentAt(seen, view, dropped + 1))
  }

  /** The pair (i - 1, i) stands in a run that was cut. */
  predicate CutPair(seen: seq<Sample>, view: View, dropped: nat, i: nat) {
    VisiblePair(seen, view, i) && GapStart(seen, view, i) < dropped < i
  }

  predicate CutPairAgrees(seen: seq<Sample>, view: View, dropped: nat, i: nat)
    requires CutPair(seen, view, dropped, i)
  {
    || view.UsableHeight() == 0.0
    || (CaughtUp(seen, view, dropped, i - 1) && (dropped + 1 < i || FirstPairAgrees(seen, view, dropped)))
  }

  /** The two runs of a cut pair, as points: the whole one from a, and what is left of it. */
  lemma CutRuns(seen: seq<Sample>, dropped: nat, kept: seq<Sample>, view: View, i: nat) returns (a: nat, n: nat)
    requires dropped <= |seen| && seen[dropped..] == kept && CutPair(seen, view, dropped, i)
    ensures a < dropped && i < n && IsRun(seen, view, a, n) && IsRun(kept, view, 0, n - dropped)
    ensures var p, q := RunPoints(kept, view, 0, n - dropped), RunPoints(seen, view, a, n);
      && (forall j :: 0 <= j < |p| ==> SamePlace(p[j], q[dropped - a + j]))
      && (CaughtUp(seen, view, dropped, i - 1) ==>
            forall j :: i - 1 - dropped <= j < |p| ==> p[j] == q[dropped - a + j])
  {
    hide PlotPoint, CaughtUp;
    a, n := RunAround(seen, view, i);
    CutRun(seen, dropped, kept, view, a, n);
    var p, q := RunPoints(kept, view, 0, n - dropped), RunPoints(seen, view, a, n);
    forall j | 0 <= j < |p|
      ensures SamePlace(p[j], q[dropped - a + j])
      ensures CaughtUp(seen, view, dropped, i - 1) && i - 1 - dropped <= j ==> p[j] == q[dropped - a + j]
    {
      assert q[dropped - a + j] == PlotPoint(seen, view, a + (dropped - a + j));
      PointAgrees(seen, dropped, kept, view, dropped + j);
      SamePlot(seen, dropped, kept, view, j);
      if CaughtUp(seen, view, dropped, i - 1) && i - 1 - dropped <= j {
        StaysCaughtUp(seen, view, dropped, i - 1, dropped + j);
      }
    }
  }

  /** Without height to use every point and every tangent is the same. */
  lemma NoHeightNoShape(seen: seq<Sample>, dropped: nat, kept: seq<Sample>, view: View, a: nat, n: nat, k: nat)
    requires view.UsableHeight() == 0.0 && a < dropped && dropped + k + 1 < n
    requires IsRun(seen, view, a, n) && IsRun(kept, view, 0, n - dropped)
    ensures SameShape(RunPoints(kept, view, 0, n - dropped), k, RunPoints(seen, view, a, n), dropped - a + k)
  {
    hide Tangent, Filtered;
    var p, q := RunPoints(kept, view, 0, n - dropped), RunPoints(seen, view, a, n);
    forall j | 0 <= j < |p| ensures p[j].point.y == HEADROOM {
      assert p[j] == PlotPoint(kept, view, j);
    }
    forall j | 0 <= j < |q| ensures q[j].point.y == HEADROOM {
      assert q[j] == PlotPoint(seen, view, a + j);
    }
    LevelTangent(p, k);
    LevelTangent(p, k + 1);
    LevelTangent(q, dropped - a + k);
    LevelTangent(q, dropped - a + (k + 1));
  }

  /** While the filter has not caught up at the earlier sample, no part of the pair is drawn alike. */
  lemma NotCaughtUpDiffers(seen: seq<Sample>, dropped: nat, kept: seq<Sample>, view: View, i: nat)
    requires dropped < i < |seen| && seen[dropped..] == kept && AllPresent(seen, view, dropped, i + 1)
    requires view.UsableHeight() > 0.0 && !CaughtUp(seen, view, dropped, i - 1)
    ensures Present(kept, view, i - 1 - dropped) && Present(kept, view, i - dropped)
    ensures PlotPoint(kept, view, i - 1 - dropped).point.y != PlotPoint(seen, view, i - 1).point.y
    ensures PlotPoint(kept, view, i - dropped).point.y == PlotPoint(seen, view, i).point.y ==>
      seen[i].elapsedMilliseconds <= seen[i - 1].elapsedMilliseconds
  {
    hide PlotPoint, CaughtUp;
    PointAgrees(seen, dropped, kept, view, i - 1);
    PointAgrees(seen, dropped, kept, view, i);
    CaughtUpNext(seen, view, dropped, i);
  }

  /** Behind the first pair kept the tangents agree of themselves. */
  lemma LaterPairKeepsShape(seen: seq<Sample>, dropped: nat, kept: seq<Sample>, view: View, a: nat, n: nat, i: nat)
    requires dropped <= |seen| && seen[dropped..] == kept && a < dropped && dropped + 1 < i < n
    requires IsRun(seen, view, a, n) && IsRun(kept, view, 0, n - dropped) && CaughtUp(seen, view, dropped, i - 1)
    requires var p, q := RunPoints(kept, view, 0, n - dropped), RunPoints(seen, view, a, n);
      && (forall j :: 0 <= j < |p| ==> SamePlace(p[j], q[dropped - a + j]))
      && forall j :: i - 1 - dropped <= j < |p| ==> p[j] == q[dropped - a + j]
    ensures SameShape(RunPoints(kept, view, 0, n - dropped), i - 1 - dropped,
                      RunPoints(seen, view, a, n), dropped - a + (i - 1 - dropped))
  {
    hide PlotPoint, CaughtUp, Tangent, RunPoints;
    var p, q := RunPoints(kept, view, 0, n - dropped), RunPoints(seen, view, a, n);
    var k := i - 1 - dropped;
    CaughtUpNext(seen, view, dropped, i - 1);
    assert q[dropped - a + (k - 1)] == PlotPoint(seen, view, a + (dropped - a + (k - 1)));
    if CaughtUp(seen, view, dropped, i - 2) {
      PointAgrees(seen, dropped, kept, view, i - 2);
    } else {
      PlotTime(kept, view, k - 1);
      PlotTime(kept, view, k);
    }
    TangentsAgreeBehind(p, q, dropped - a, k);
    assert p[k] == q[dropped - a + k] && p[k + 1] == q[dropped - a + (k + 1)];
  }

  lemma PlotTime(samples: seq<Sample>, view: View, i: nat)
    requires i < |samples| && Present(samples, view, i)
    ensures PlotPoint(samples, view, i).time == samples[i].elapsedMilliseconds as real
  {
  }

  lemma FirstPairShape(seen: seq<Sample>, dropped: nat, kept: seq<Sample>, view: View, a: nat, n: nat)
    requires dropped <= |seen| && seen[dropped..] == kept && a < dropped && dropped + 1 < n
    requires IsRun(seen, view, a, n) && IsRun(kept, view, 0, n - dropped)
    requires var p, q := RunPoints(kept, view, 0, n - dropped), RunPoints(seen, view, a, n);
      p[0] == q[dropped - a] && p[1] == q[dropped - a + 1]
    ensures var p, q := RunPoints(kept, view, 0, n - dropped), RunPoints(seen, view, a, n);
      SameShape(p, 0, q, dropped - a) || p[0].time < view.Cutoff() == p[1].time
      <==> FirstPairAgrees(seen, view, dropped)
  {
    hide PlotPoint, Tangent, RunPoints, TangentAt;
    TangentInRun(kept, view, 0, n - dropped, 0);
    TangentInRun(kept, view, 0, n - dropped, 1);
    TangentInRun(seen, view, a, n, dropped);
    TangentInRun(seen, view, a, n, dropped + 1);
    PlotTime(seen, view, dropped);
    PlotTime(seen, view, dropped + 1);
    PlotTime(kept, view, 0);
    PlotTime(kept, view, 1);
  }

  lemma ShapeInCutRun(seen: seq<Sample>, dropped: nat, kept: seq<Sample>, view: View, a: nat, n: nat, i: nat)
    requires dropped <= |seen| && seen[dropped..] == kept && CutPair(seen, view, dropped, i) && a < dropped && i < n
    requires IsRun(seen, view, a, n) && IsRun(kept, view, 0, n - dropped)
    requires var p, q := RunPoints(kept, view, 0, n - dropped), RunPoints(seen, view, a, n);
      && (forall j :: 0 <= j < |p| ==> SamePlace(p[j], q[dropped - a + j]))
      && (CaughtUp(seen, view, dropped, i - 1) ==>
            forall j :: i - 1 - dropped <= j < |p| ==> p[j] == q[dropped - a + j])
    ensures var p, q := RunPoints(kept, view, 0, n - dropped), RunPoints(seen, view, a, n);
      var k := i - 1 - dropped;
      var j := dropped - a + k;
      || SameShape(p, k, q, j)
      || (p[k].time < view.Cutoff() == p[k + 1].time && p[k + 1].point.y == q[j + 1].point.y)
      <==> CutPairAgrees(seen, view, dropped, i)
  {
    hide PlotPoint, CaughtUp, FirstPairAgrees, Tangent, GapStart, Present, RunPoints;
    var p, q := RunPoints(kept, view, 0, n - dropped), RunPoints(seen, view, a, n);
    var k := i - 1 - dropped;
    assert p[k] == PlotPoint(kept, view, k) && p[k + 1] == PlotPoint(kept, view, k + 1);
    assert q[dropped - a + k] == PlotPoint(seen, view, a + (dropped - a + k));
    assert q[dropped - a + k + 1] == PlotPoint(seen, view, a + (dropped - a + k + 1));
    if view.UsableHeight() == 0.0 {
      NoHeightNoShape(seen, dropped, kept, view, a, n, k);
    } else if !CaughtUp(seen, view, dropped, i - 1) {
      NotCaughtUpDiffers(seen, dropped, kept, view, i);
      PlotTime(seen, view, i - 1);
      PlotTime(seen, view, i);
    } else if dropped + 1 < i {
      LaterPairKeepsShape(seen, dropped, kept, view, a, n, i);
    } else {
      FirstPairShape(seen, dropped, kept, view, a, n);
    }
  }

  lemma SamePlot(seen: seq<Sample>, dropped: nat, kept: seq<Sample>, view: View, j: nat)
    requires dropped + j < |seen| && seen[dropped..] == kept && Present(seen, view, dropped + j)
      && Present(kept, view, j)
    ensures SamePlace(PlotPoint(kept, view, j), PlotPoint(seen, view, dropped + j))
  {
    hide Filtered;
  }

  /** In a cut run a pair is drawn with the identical cubic under exactly this condition, whatever the timestamps. */
  lemma CutPairExactly(seen: seq<Sample>, dropped: nat, kept: seq<Sample>, view: View, i: nat,
                       c: CubicSegment, d: CubicSegment)
    requires dropped <= |seen| && seen[dropped..] == kept && CutPair(seen, view, dropped, i)
    requires DrawsPair(c, kept, view, i - dropped) && DrawsPair(d, seen, view, i)
    ensures c == d <==> CutPairAgrees(seen, view, dropped, i)
  {
    hide EmittedCubic, RunPoints, PlotPoint, CaughtUp, CutPairAgrees, SameShape;
    var a, n := CutRuns(seen, dropped, kept, view, i);
    var p, q := RunPoints(kept, view, 0, n - dropped), RunPoints(seen, view, a, n);
    PairDrawsOneCubic(kept, view, 0, n - dropped, i - dropped, c);
    PairDrawsOneCubic(seen, view, a, n, i, d);
    var k := i - 1 - dropped;
    assert SamePlace(p[k], q[dropped - a + k]) && SamePlace(p[k + 1], q[dropped - a + (k + 1)]);
    PlotTime(kept, view, k + 1);
    SameCubicExactly(p, k, q, dropped - a + k, view.Cutoff());
    ShapeInCutRun(seen, dropped, kept, view, a, n, i);
  }

  /**
   * Behind the first pair kept, with any height to use: exactly once the filter has caught up at the earlier sample.
   */
  lemma SameCubicOnceCaughtUp(seen: seq<Sample>, dropped: nat, kept: seq<Sample>, view: View, i: nat,
                              c: CubicSegment, d: CubicSegment)
    requires dropped <= |seen| && seen[dropped..] == kept && CutPair(seen, view, dropped, i) && dropped + 1 < i
    requires DrawsPair(c, kept, view, i - dropped) && DrawsPair(d, seen, view, i) && view.UsableHeight() > 0.0
    ensures c == d <==> CaughtUp(seen, view, dropped, i - 1)
  {
    hide DrawsPair, CaughtUp;
    CutPairExactly(seen, dropped, kept, view, i, c, d);
  }

  lemma StaysCaughtUp(seen: seq<Sample>, view: View, dropped: nat, i: nat, j: nat)
    requires dropped <= i <= j < |seen| && AllPresent(seen, view, dropped, j + 1) && CaughtUp(seen, view, dropped, i)
    ensures CaughtUp(seen, view, dropped, j)
  {
    hide Filtered, Raw;
  }

  /** Conversely a pair of a cut run at which the filter has not caught up is drawn differently. */
  lemma DifferentUntilCaughtUp(seen: seq<Sample>, dropped: nat, kept: seq<Sample>, view: View, i: nat,
                               c: CubicSegment, d: CubicSegment)
    requires dropped <= |seen| && seen[dropped..] == kept && VisiblePair(seen, view, i) && view.UsableHeight() > 0.0
    requires GapStart(seen, view, i) <= dropped < i
    requires DrawsPair(c, kept, view, i - dropped) && DrawsPair(d, seen, view, i)
    requires AllPresent(seen, view, dropped, i + 1) && !CaughtUp(seen, view, dropped, i)
    ensures c.end.y != d.end.y
  {
    hide EmittedCubic, PlotPoint, CaughtUp;
    var a, n := RunAround(seen, view, i);
    CutRun(seen, dropped, kept, view, a, n);
    PairDrawsOneCubic(kept, view, 0, n - dropped, i - dropped, c);
    PairDrawsOneCubic(seen, view, a, n, i, d);
    EndUnchanged(RunPoints(kept, view, 0, n - dropped), i - 1 - dropped, view.Cutoff());
    EndUnchanged(RunPoints(seen, view, a, n), i - 1 - a, view.Cutoff());
    PointAgrees(seen, dropped, kept, view, i);
  }

  // --- The drawn curves, side by side -----------------------------------------

  /** The pair's run begins behind what was dropped, or was cut without a trace in this pair. */
  predicate Undisturbed(seen: seq<Sample>, view: View, dropped: nat, i: nat)
    requires VisiblePair(seen, view, i)
  {
    GapStart(seen, view, i) >= dropped || (dropped < i && CutPairAgrees(seen, view, dropped, i))
  }

  /**
   * Pruned and whole history draw cubics for the same pairs in the same order, and the k-th cubics are identical
   * exactly when their pair is undisturbed.
   */
  lemma PrunedAndWholeCurve(seen: seq<Sample>, dropped: nat, retained: seq<Sample>, samples: seq<Sample>, w: Window,
                            view: View, k: nat)
    requires Shown(seen, dropped, retained, samples, w) && view.windowEnd == w.current
    requires k < |AllCubics(Runs(seen, view))|
    ensures |AllCubics(Runs(retained + samples, view))| == |AllCubics(Runs(seen, view))|
        == |VisiblePairs(seen, view, 0, |seen|)|
    ensures var i := VisiblePairs(seen, view, 0, |seen|)[k];
      var c, d := AllCubics(Runs(retained + samples, view))[k], AllCubics(Runs(seen, view))[k];
      VisiblePair(seen, view, i) && (c == d <==> Undisturbed(seen, view, dropped, i))
  {
    hide Shown, VisiblePair, AllCubics, Runs, DrawsPair, CutPairAgrees;
    var kept := retained + samples;
    NothingVisibleIsPruned(seen, dropped, retained, samples, w, view);
    CubicsAreVisiblePairs(seen, view);
    ShownIsSuffix(seen, dropped, retained, samples, w);
    var pairs := VisiblePairs(seen, view, 0, |seen|);
    PairsAreVisible(seen, view, 0, |seen|, k);
    var i := pairs[k];
    assert i == VisiblePairs(kept, view, 0, |kept|)[k] + dropped;
    if i <= dropped {
      DroppedPairIsInvisible(seen, dropped, retained, samples, w, view, i);
    }
    var c, d := AllCubics(Runs(kept, view))[k], AllCubics(Runs(seen, view))[k];
    assert DrawsPair(c, kept, view, i - dropped) && DrawsPair(d, seen, view, i);
    VisibleInRange(seen, view, i);
    if GapStart(seen, view, i) >= dropped {
      SameCubicBehindGap(seen, dropped, kept, view, i, d);
      OneCubic(kept, view, i - dropped, c, d);
    } else {
      CutPairExactly(seen, dropped, kept, view, i, c, d);
    }
  }

  lemma VisibleInRange(samples: seq<Sample>, view: View, i: nat)
    requires VisiblePair(samples, view, i)
    ensures i < |samples|
  {
  }

  lemma OneCubic(samples: seq<Sample>, view: View, i: nat, c: CubicSegment, d: CubicSegment)
    requires DrawsPair(c, samples, view, i) && DrawsPair(d, samples, view, i)
    ensures c == d
  {
    hide EmittedCubic, RunPoints;
    var a: nat, n: nat :| IsRun(samples, view, a, n) && a < i < n &&
      c == EmittedCubic(RunPoints(samples, view, a, n), i - 1 - a, view.Cutoff());
    PairDrawsOneCubic(samples, view, a, n, i, c);
    PairDrawsOneCubic(samples, view, a, n, i, d);
  }

  // --- Pruning can change the curve ---------------------------------------------

  /** Three memory samples, at 0, 1 and 61.5 seconds. */
  function Three(first: real, second: real, third: real): seq<Sample> {
    [Sample(0, None, Some(first)), Sample(1000, None, Some(second)), Sample(61500, None, Some(third))]
  }

  /** An append without animation drops the first of them and moves the window's end to the last. */
  lemma LateSamplePrunes(first: real, second: real, third: real)
    ensures var s := Three(first, second, third);
      && Appended(s[..2], s[2]) == s[2..] && Cached(At(1000.0), Newest(s[2..]), true, 0) == At(61500.0)
      && Pruned(s[..2], At(61500.0).Cutoff()) == s[1..2] && DroppedBy(s[..2], At(61500.0).Cutoff()) == 1
      && Shown(s, 1, s[1..2], s[2..], At(61500.0))
  {
    var s := Three(first, second, third);
    OlderIs(s, 1500.0, 2);
    assert s[..2] == [s[0], s[1]] && s[1..2] == [s[1]] && s[2..] == [s[2]];
    assert s[1..] == s[1..2] + s[2..];
  }

  /** One segment is visible, from a run that was cut: drawn once from the last two samples and once from all three. */
  lemma OneCutSegment(first: real, second: real, third: real, view: View)
    requires view.metric.Memory? && view.windowEnd == 61500.0
    ensures var s := Three(first, second, third);
      var pruned, whole := AllCubics(Runs(s[1..2] + s[2..], view)), AllCubics(Runs(s, view));
      && |pruned| == |whole| == 1 && s[1..] == s[1..2] + s[2..] && CutPair(s, view, 1, 2)
      && DrawsPair(pruned[0], s[1..], view, 1) && DrawsPair(whole[0], s, view, 2)
  {
    hide AllCubics, Runs, VisiblePairs, DrawsPair, Shown;
    var s := Three(first, second, third);
    LateSamplePrunes(first, second, third);
    OneVisiblePair(view, s);
    CubicsAreVisiblePairs(s, view);
    NothingVisibleIsPruned(s, 1, s[1..2], s[2..], At(61500.0), view);
    assert Present(s, view, 0) && Present(s, view, 1) && Present(s, view, 2);
    assert GapStart(s, view, 0) == 0 && GapStart(s, view, 1) == 0 && GapStart(s, view, 2) == 0;
    assert s[1..] == s[1..2] + s[2..];
    var pairs := VisiblePairs(s[1..], view, 0, 2);
    assert Shifted(pairs, 1)[0] == pairs[0] + 1;
  }

  lemma OneVisiblePair(view: View, seen: seq<Sample>)
    requires view.metric.Memory? && view.windowEnd == 61500.0 && |seen| == 3
    requires seen[0].elapsedMilliseconds == 0 && seen[1].elapsedMilliseconds == 1000
    requires seen[2].elapsedMilliseconds == 61500 && forall s :: s in seen ==> s.memory.Some?
    ensures VisiblePairs(seen, view, 0, |seen|) == [2]
  {
    assert VisiblePairs(seen, view, 0, 0) == [] && VisiblePairs(seen, view, 0, 1) == [];
    assert !VisiblePair(seen, view, 1) && VisiblePair(seen, view, 2);
    assert VisiblePairs(seen, view, 0, 2) == [];
  }

  /**
   * The filter starts afresh at the second sample: from 0, 1, 1 the one visible segment is drawn elsewhere than the
   * whole history would draw it.
   */
  lemma PruningCanChangeTheCurve(width: real, height: real, decay: Decay)
    requires width > 0.0 && height > HEADROOM
    ensures var view, s := View(Memory, width, height, 61500.0, decay), Three(0.0, 1.0, 1.0);
      var pruned, whole := AllCubics(Runs(s[1..2] + s[2..], view)), AllCubics(Runs(s, view));
      |pruned| == |whole| == 1 && pruned[0].end.y != whole[0].end.y
  {
    hide AllCubics, Runs, DrawsPair;
    var view, s := View(Memory, width, height, 61500.0, decay), Three(0.0, 1.0, 1.0);
    OneCutSegment(0.0, 1.0, 1.0, view);
    JumpIsNotCaughtUp(view, s);
    var pruned, whole := AllCubics(Runs(s[1..2] + s[2..], view)), AllCubics(Runs(s, view));
    DifferentUntilCaughtUp(s, 1, s[1..], view, 2, pruned[0], whole[0]);
  }

  lemma JumpIsNotCaughtUp(view: View, seen: seq<Sample>)
    requires view.metric.Memory? && seen == Three(0.0, 1.0, 1.0)
    ensures AllPresent(seen, view, 1, 3) && !CaughtUp(seen, view, 1, 2)
  {
    FilterRestarts(seen, view);
    FilterAdvances(seen, view, 1);
    PositiveQuotient(1.0, MEMORY_TIME_CONSTANT);
    assert Filtered(seen, view, 1).filtered == 1.0 - view.decay(1.0 / MEMORY_TIME_CONSTANT);
  }

  /**
   * The tangents start afresh too: from 1/2, 1/2, 1 the filter has caught up and every point is where it would be, and
   * still the segment is another one, straight instead of rising from a level start.
   */
  lemma CaughtUpIsNotEnough(width: real, height: real, decay: Decay)
    requires width > 0.0 && height > HEADROOM
    ensures var view, s := View(Memory, width, height, 61500.0, decay), Three(0.5, 0.5, 1.0);
      var pruned, whole := AllCubics(Runs(s[1..2] + s[2..], view)), AllCubics(Runs(s, view));
      && AllPresent(s, view, 1, 3) && CaughtUp(s, view, 1, 1) && CaughtUp(s, view, 1, 2)
      && |pruned| == |whole| == 1 && pruned[0] != whole[0]
  {
    hide AllCubics, Runs, DrawsPair, CaughtUp, FirstPairAgrees;
    var view, s := View(Memory, width, height, 61500.0, decay), Three(0.5, 0.5, 1.0);
    OneCutSegment(0.5, 0.5, 1.0, view);
    LevelStartIsCaughtUp(view, s);
    CutPairExactly(s, 1, s[1..], view, 2, AllCubics(Runs(s[1..2] + s[2..], view))[0], AllCubics(Runs(s, view))[0]);
  }

  lemma LevelStartIsCaughtUp(view: View, seen: seq<Sample>)
    requires view.metric.Memory? && view.windowEnd == 61500.0 && seen == Three(0.5, 0.5, 1.0)
      && view.UsableHeight() > 0.0
    ensures AllPresent(seen, view, 1, 3) && CaughtUp(seen, view, 1, 1) && CaughtUp(seen, view, 1, 2)
    ensures !FirstPairAgrees(seen, view, 1)
  {
    hide TangentAt;
    FilterRestarts(seen, view);
    FilterAdvances(seen, view, 1);
    assert Filtered(seen, view, 1).filtered == 0.5;
    LevelStartIsFlat(view, seen);
    StraightRise(view, seen[1..]);
  }

  lemma LevelStartIsFlat(view: View, seen: seq<Sample>)
    requires view.metric.Memory? && seen == Three(0.5, 0.5, 1.0)
    requires Present(seen, view, 0) && Present(seen, view, 1) && Filtered(seen, view, 1).filtered == 0.5
    ensures TangentAt(seen, view, 1) == 0.0
  {
    hide TangentAt, Filtered;
    FilterRestarts(seen, view);
    TangentInRun(seen, view, 0, 3, 1);
    var p := RunPoints(seen, view, 0, 3);
    assert p[0] == PlotPoint(seen, view, 0) && p[1] == PlotPoint(seen, view, 1);
    ExtremaAreFlat(p, 1);
  }

  lemma StraightRise(view: View, kept: seq<Sample>)
    requires view.metric.Memory? && kept == Three(0.5, 0.5, 1.0)[1..] && view.UsableHeight() > 0.0
    ensures Present(kept, view, 0) && TangentAt(kept, view, 0) != 0.0
  {
    hide TangentAt, Filtered;
    FilterRestarts(kept, view);
    FilterAdvances(kept, view, 1);
    PositiveQuotient(60.5, MEMORY_TIME_CONSTANT);
    TangentInRun(kept, view, 0, 2, 0);
    var p := RunPoints(kept, view, 0, 2);
    assert p[0] == PlotPoint(kept, view, 0) && p[1] == PlotPoint(kept, view, 1);
    var share := 1.0 - view.decay(60.5 / MEMORY_TIME_CONSTANT);
    assert Filtered(kept, view, 1).filtered == 0.5 + 0.5 * share;
    HigherRatioIsPlottedHigher(view, 0.5, 0.5 + 0.5 * share);
    RiseSign(p, 0);
  }

  lemma HigherRatioIsPlottedHigher(view: View, low: real, high: real)
    requires low < high && view.UsableHeight() > 0.0
    ensures Ordinate(view, high) < Ordinate(view, low)
  {
    var h, d := view.UsableHeight(), high - low;
    assert Ordinate(view, low) - Ordinate(view, high) == h * d;
    NonZeroProduct(h, d);
    ProductNonNegative(h, d);
  }
}
