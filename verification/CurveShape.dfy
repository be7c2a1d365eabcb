/** What the tangents and the clamps buy: C1 joins, no invented extremum, and a clip that changes nothing visible. */
module CurveShape {
  import opened Reals
  import opened CurveGeometry
  import Bezier

  // --- Tangents stay inside the monotone fence ------------------------------

  /** A tangent with the sign of the slope (or zero) and at most three times its magnitude. */
  predicate WithinFence(tangent: real, slope: real) {
    if slope >= 0.0 then 0.0 <= tangent <= 3.0 * slope else 3.0 * slope <= tangent <= 0.0
  }

  /** Cross-multiplied core: t q = a + b with q >= a / s gives t <= 3 s whenever a + b <= 3 a. */
  lemma HarmonicUpper(t: real, a: real, b: real, s: real, r: real)
    requires a > 0.0 && b > 0.0 && s > 0.0 && r > 0.0 && a + b <= 3.0 * a
    requires t == (a + b) / (a / s + r)
    ensures 0.0 <= t <= 3.0 * s
  {
    var u := a / s;
    assert u * s == a;
    assert u > 0.0;
    assert t * (u + r) == a + b;
    assert t > 0.0;
    ProductNonNegative(t, r);
    assert (3.0 * s - t) * u == 3.0 * a - t * u;
    CancelPositive(3.0 * s - t, u);
  }

  lemma HarmonicMirror(beforeSlope: real, afterSlope: real, beforeWidth: real, afterWidth: real)
    ensures HarmonicTangent(-beforeSlope, -afterSlope, beforeWidth, afterWidth) ==
            -HarmonicTangent(beforeSlope, afterSlope, beforeWidth, afterWidth)
  {}

  lemma HarmonicWithinFence(beforeSlope: real, afterSlope: real, beforeWidth: real, afterWidth: real)
    requires beforeWidth > 0.0 && afterWidth > 0.0
    ensures var t := HarmonicTangent(beforeSlope, afterSlope, beforeWidth, afterWidth);
            WithinFence(t, beforeSlope) && WithinFence(t, afterSlope)
  {
    var t := HarmonicTangent(beforeSlope, afterSlope, beforeWidth, afterWidth);
    var a := 2.0 * afterWidth + beforeWidth;
    var b := afterWidth + 2.0 * beforeWidth;
    if beforeSlope * afterSlope > 0.0 {
      SameSignQuotients(a, b, beforeSlope, afterSlope);
      if beforeSlope > 0.0 {
        HarmonicUpper(t, a, b, beforeSlope, b / afterSlope);
        HarmonicUpper(t, b, a, afterSlope, a / beforeSlope);
      } else {
        HarmonicMirror(beforeSlope, afterSlope, beforeWidth, afterWidth);
        SameSignQuotients(a, b, -beforeSlope, -afterSlope);
        HarmonicUpper(-t, a, b, -beforeSlope, b / -afterSlope);
        HarmonicUpper(-t, b, a, -afterSlope, a / -beforeSlope);
      }
    }
  }

  lemma EndpointWithinFence(firstSlope: real, secondSlope: real, firstWidth: real, secondWidth: real)
    requires firstWidth > 0.0 && secondWidth > 0.0
    ensures WithinFence(EndpointTangent(firstSlope, secondSlope, firstWidth, secondWidth), firstSlope)
  {}

  /** Every tangent has the sign of each adjacent positive-width slope and at most three times its magnitude. */
  lemma TangentWithinFence(points: seq<TimedPoint>, i: nat, segment: nat)
    requires i < |points| && segment + 1 < |points| && (segment == i || segment + 1 == i)
    requires Width(points, segment) > 0.0
    ensures WithinFence(Tangent(points, i), Slope(points, segment))
  {
    var last := |points| - 1;
    if last == 1 {
    } else if i == 0 {
      if Width(points, 1) > 0.0 {
        EndpointWithinFence(Slope(points, 0), Slope(points, 1), Width(points, 0), Width(points, 1));
      }
    } else if i == last {
      if Width(points, last - 2) > 0.0 {
        EndpointWithinFence(Slope(points, last - 1), Slope(points, last - 2),
                            Width(points, last - 1), Width(points, last - 2));
      }
    } else if Width(points, i - 1) > 0.0 && Width(points, i) > 0.0 {
      HarmonicWithinFence(Slope(points, i - 1), Slope(points, i), Width(points, i - 1), Width(points, i));
    }
  }

  /** The sample is not above, or not below, both of its neighbours. */
  predicate Extremum(points: seq<TimedPoint>, i: nat)
    requires 0 < i && i + 1 < |points|
  {
    || (points[i].point.y <= points[i - 1].point.y && points[i].point.y <= points[i + 1].point.y)
    || (points[i].point.y >= points[i - 1].point.y && points[i].point.y >= points[i + 1].point.y)
  }

  /**
   * An extremum of the samples gets a flat tangent, whatever the timestamps, and between two positive widths nothing
   * but an extremum does.
   */
  lemma ExtremaAreFlat(points: seq<TimedPoint>, i: nat)
    requires 0 < i && i + 1 < |points|
    ensures Extremum(points, i) ==> Tangent(points, i) == 0.0
    ensures Width(points, i - 1) > 0.0 && Width(points, i) > 0.0 ==>
      (Tangent(points, i) == 0.0 <==> Extremum(points, i))
  {
    if Width(points, i - 1) > 0.0 && Width(points, i) > 0.0 {
      hide Slope, HarmonicTangent;
      var before, after := Slope(points, i - 1), Slope(points, i);
      RiseSign(points, i - 1);
      RiseSign(points, i);
      SignOfProduct(before, after);
      HarmonicIsZero(before, after, Width(points, i - 1), Width(points, i));
    }
  }

  lemma RiseSign(points: seq<TimedPoint>, i: nat)
    requires i + 1 < |points| && Width(points, i) > 0.0
    ensures Slope(points, i) > 0.0 <==> points[i + 1].point.y > points[i].point.y
    ensures Slope(points, i) < 0.0 <==> points[i + 1].point.y < points[i].point.y
  {
    RiseOfSlope(points, i);
    QuotientSign(points[i].point.y - points[i + 1].point.y, Width(points, i));
    assert (points[i].point.y - points[i + 1].point.y) / Width(points, i) == -Slope(points, i);
  }

  lemma SignOfProduct(a: real, b: real)
    ensures a * b > 0.0 <==> (a > 0.0 && b > 0.0) || (a < 0.0 && b < 0.0)
  {
    if a >= 0.0 && b <= 0.0 {
      ProductNonNegative(a, -b);
    } else if a <= 0.0 && b >= 0.0 {
      ProductNonNegative(-a, b);
    }
  }

  lemma HarmonicIsZero(before: real, after: real, beforeWidth: real, afterWidth: real)
    requires beforeWidth > 0.0 && afterWidth > 0.0
    ensures HarmonicTangent(before, after, beforeWidth, afterWidth) == 0.0 <==> before * after <= 0.0
  {
    if before * after > 0.0 {
      var a, b := 2.0 * afterWidth + beforeWidth, afterWidth + 2.0 * beforeWidth;
      SameSignQuotients(a, b, before, after);
      NonZeroQuotient(a + b, a / before + b / after);
    }
  }

  lemma NonZeroQuotient(a: real, b: real)
    requires a != 0.0 && b != 0.0
    ensures a / b != 0.0
  {
    assert a / b * b == a;
  }

  lemma RiseOfSlope(points: seq<TimedPoint>, i: nat)
    requires i + 1 < |points| && Width(points, i) > 0.0
    ensures Slope(points, i) * Width(points, i) == points[i + 1].point.y - points[i].point.y
    ensures Slope(points, i) >= 0.0 <==> points[i + 1].point.y >= points[i].point.y
  {
    QuotientSign(points[i + 1].point.y - points[i].point.y, Width(points, i));
  }

  lemma QuotientSign(a: real, w: real)
    requires w > 0.0
    ensures a / w * w == a
    ensures a / w >= 0.0 <==> a >= 0.0
  {}

  /** A tangent within the fence lifts by a third of its run without leaving the interval's rise. */
  predicate LiftWithin(lift: real, rise: real) {
    if 0.0 <= rise then 0.0 <= lift <= rise else rise <= lift <= 0.0
  }

  lemma FenceLift(tangent: real, slope: real, width: real, rise: real)
    requires width > 0.0 && WithinFence(tangent, slope) && slope * width == rise
    ensures LiftWithin(tangent * width / 3.0, rise)
  {
    if slope >= 0.0 {
      ProductNonNegative(slope, width);
      ProductNonNegative(tangent, width);
      ProductMonotone(tangent, 3.0 * slope, width);
    } else {
      ProductMonotone(slope, 0.0, width);
      ProductNonNegative(-tangent, width);
      ProductMonotone(3.0 * slope, tangent, width);
    }
  }

  lemma LiftsStayInside(y0: real, y1: real, lift0: real, lift1: real)
    requires LiftWithin(lift0, y1 - y0) && LiftWithin(lift1, y1 - y0)
    ensures Clamp(y0 + lift0, Min(y0, y1), Max(y0, y1)) == y0 + lift0
    ensures Clamp(y1 - lift1, Min(y0, y1), Max(y0, y1)) == y1 - lift1
  {}

  lemma LiftBounds(points: seq<TimedPoint>, i: nat, end: nat)
    requires i + 1 < |points| && Width(points, i) > 0.0 && (end == i || end == i + 1)
    ensures LiftWithin(Tangent(points, end) * Width(points, i) / 3.0, points[i + 1].point.y - points[i].point.y)
  {
    hide Tangent, Slope;
    RiseOfSlope(points, i);
    TangentWithinFence(points, end, i);
    FenceLift(Tangent(points, end), Slope(points, i), Width(points, i), points[i + 1].point.y - points[i].point.y);
  }

  /** In exact arithmetic the two std::clamp calls on the control ordinates change nothing. */
  lemma ClampsAreNoOps(points: seq<TimedPoint>, i: nat)
    requires i + 1 < |points| && Width(points, i) > 0.0
    ensures var c := SegmentCubic(points, i);
            && c.control1.y == c.start.y + Tangent(points, i) * Width(points, i) / 3.0
            && c.control2.y == c.end.y - Tangent(points, i + 1) * Width(points, i) / 3.0
  {
    hide Tangent;
    LiftBounds(points, i, i);
    LiftBounds(points, i, i + 1);
    LiftsStayInside(points[i].point.y, points[i + 1].point.y,
                    Tangent(points, i) * Width(points, i) / 3.0, Tangent(points, i + 1) * Width(points, i) / 3.0);
  }

  // --- No invented extrema --------------------------------------------------

  /** The curve moves from its start ordinate to its end ordinate without ever turning back. */
  ghost predicate NeverTurnsBack(c: CubicSegment) {
    forall t, u :: 0.0 <= t <= u <= 1.0 ==>
      && (c.start.y <= c.end.y ==> CubicPoint(c, t).y <= CubicPoint(c, u).y)
      && (c.end.y <= c.start.y ==> CubicPoint(c, u).y <= CubicPoint(c, t).y)
  }

  lemma SegmentIsBoxed(points: seq<TimedPoint>, i: nat)
    requires i + 1 < |points|
    ensures var c := SegmentCubic(points, i);
            Bezier.Boxed(c.start.y, c.control1.y, c.control2.y, c.end.y)
  {
    hide Tangent;
  }

  lemma CutParameterInRange(points: seq<TimedPoint>, i: nat, cutoff: real)
    requires i + 1 < |points|
    ensures 0.0 <= CutParameter(points, i, cutoff) <= 1.0
  {}

  lemma NoCut(points: seq<TimedPoint>, i: nat, cutoff: real)
    requires i + 1 < |points| && !(points[i].time < cutoff && Width(points, i) > 0.0)
    ensures CutParameter(points, i, cutoff) == 0.0
  {}

  function Along(p: real, t: real): real { p + (1.0 - p) * t }

  lemma AlongInRange(p: real, t: real, u: real)
    requires 0.0 <= p <= 1.0 && 0.0 <= t <= u <= 1.0
    ensures 0.0 <= Along(p, t) <= Along(p, u) <= 1.0
  {
    var rest := 1.0 - p;
    ProductNonNegative(rest, t);
    ProductMonotone(t, u, rest);
    var left := 1.0 - u;
    ProductNonNegative(rest, left);
    assert rest * left == 1.0 - Along(p, u);
  }

  /** De Casteljau's right half retraces the original curve from the split parameter on. */
  lemma SplitRetraces(c: CubicSegment, p: real, t: real)
    ensures CubicPoint(SplitRight(c, p), t) == CubicPoint(c, Along(p, t))
  {
    hide Bezier.Value, Bezier.SplitRight;
    Bezier.SplitIsRestriction(c.start.x, c.control1.x, c.control2.x, c.end.x, p, t);
    Bezier.SplitIsRestriction(c.start.y, c.control1.y, c.control2.y, c.end.y, p, t);
  }

  /** Clipped or not, the emitted ordinate is the unclipped one at a parameter moved right of the cut. */
  lemma EmittedOrdinate(points: seq<TimedPoint>, i: nat, cutoff: real, t: real)
    requires i + 1 < |points|
    ensures CubicPoint(EmittedCubic(points, i, cutoff), t).y ==
            CubicPoint(SegmentCubic(points, i), Along(CutParameter(points, i, cutoff), t)).y
  {
    hide SegmentCubic, Bezier.Value, Bezier.SplitRight, CutParameter;
    var whole := SegmentCubic(points, i);
    var p := CutParameter(points, i, cutoff);
    if points[i].time < cutoff && Width(points, i) > 0.0 {
      SplitRetraces(whole, p, t);
      var right := SplitRight(whole, p);
      var c := EmittedCubic(points, i, cutoff);
      assert c.start.y == right.start.y && c.control1.y == right.control1.y;
      assert c.control2.y == right.control2.y && c.end.y == right.end.y;
    } else {
      NoCut(points, i, cutoff);
      assert Along(p, t) == t;
    }
  }

  lemma CubicEnds(c: CubicSegment)
    ensures CubicPoint(c, 0.0) == c.start && CubicPoint(c, 1.0) == c.end
  {}

  lemma SegmentMonotone(points: seq<TimedPoint>, i: nat, t: real, u: real)
    requires i + 1 < |points| && 0.0 <= t <= u <= 1.0
    ensures var c := SegmentCubic(points, i);
            && (c.start.y <= c.end.y ==> CubicPoint(c, t).y <= CubicPoint(c, u).y)
            && (c.end.y <= c.start.y ==> CubicPoint(c, u).y <= CubicPoint(c, t).y)
  {
    hide SegmentCubic, Bezier.Value;
    var c := SegmentCubic(points, i);
    SegmentIsBoxed(points, i);
    Bezier.BoxedMonotone(c.start.y, c.control1.y, c.control2.y, c.end.y, t, u);
  }

  /** For any samples whatever their timestamps, no stored cubic has a local extremum inside it. */
  lemma EmittedNeverTurnsBack(points: seq<TimedPoint>, i: nat, cutoff: real)
    requires i + 1 < |points|
    ensures NeverTurnsBack(EmittedCubic(points, i, cutoff))
  {
    hide SegmentCubic, EmittedCubic, CutParameter, CubicPoint, Along;
    var whole := SegmentCubic(points, i);
    var c := EmittedCubic(points, i, cutoff);
    var p := CutParameter(points, i, cutoff);
    CutParameterInRange(points, i, cutoff);
    CubicEnds(c);
    forall t, u | 0.0 <= t <= u <= 1.0
      ensures c.start.y <= c.end.y ==> CubicPoint(c, t).y <= CubicPoint(c, u).y
      ensures c.end.y <= c.start.y ==> CubicPoint(c, u).y <= CubicPoint(c, t).y
    {
      EmittedOrdinate(points, i, cutoff, 0.0);
      EmittedOrdinate(points, i, cutoff, t);
      EmittedOrdinate(points, i, cutoff, u);
      EmittedOrdinate(points, i, cutoff, 1.0);
      AlongInRange(p, 0.0, t);
      AlongInRange(p, t, u);
      AlongInRange(p, u, 1.0);
      SegmentMonotone(points, i, Along(p, 0.0), Along(p, t));
      SegmentMonotone(points, i, Along(p, t), Along(p, u));
      SegmentMonotone(points, i, Along(p, u), Along(p, 1.0));
    }
  }

  /** A curve that never turns back stays between its end ordinates. */
  lemma NeverTurnsBackStaysBetween(c: CubicSegment, t: real)
    requires NeverTurnsBack(c) && 0.0 <= t <= 1.0
    ensures Min(c.start.y, c.end.y) <= CubicPoint(c, t).y <= Max(c.start.y, c.end.y)
  {
    hide CubicPoint;
    CubicEnds(c);
    assert 0.0 <= 0.0 <= t <= 1.0 && 0.0 <= t <= 1.0 <= 1.0;
  }

  /** A clipped cubic lies between the two samples it joins. */
  lemma EmittedBetweenSamples(points: seq<TimedPoint>, i: nat, cutoff: real, t: real)
    requires i + 1 < |points| && 0.0 <= t <= 1.0
    ensures var y := CubicPoint(EmittedCubic(points, i, cutoff), t).y;
            Min(points[i].point.y, points[i + 1].point.y) <= y <= Max(points[i].point.y, points[i + 1].point.y)
  {
    hide SegmentCubic, EmittedCubic, CutParameter, CubicPoint, Along;
    var c := SegmentCubic(points, i);
    var p := CutParameter(points, i, cutoff);
    CutParameterInRange(points, i, cutoff);
    AlongInRange(p, t, 1.0);
    EmittedOrdinate(points, i, cutoff, t);
    CubicEnds(c);
    SegmentMonotone(points, i, 0.0, Along(p, t));
    SegmentMonotone(points, i, Along(p, t), 1.0);
    SegmentEnds(points, i);
  }

  lemma SegmentEnds(points: seq<TimedPoint>, i: nat)
    requires i + 1 < |points|
    ensures var c := SegmentCubic(points, i); c.start == points[i].point && c.end == points[i + 1].point
    ensures var c := SegmentCubic(points, i); Bezier.AtThirds(c.start.x, c.control1.x, c.control2.x, c.end.x)
  {
    hide Tangent;
  }

  // --- The clip at the window's left edge -----------------------------------

  /** Sample times map affinely to abscissae, with the cutoff at x = 0, as buildMetricGeometry lays them out. */
  ghost predicate Plotted(points: seq<TimedPoint>, cutoff: real, scale: real) {
    scale > 0.0 && forall k :: 0 <= k < |points| ==> points[k].point.x == scale * (points[k].time - cutoff)
  }

  /** The cubic after the cut but before the abscissae are forced to zero or right of it. */
  function CutCubic(points: seq<TimedPoint>, i: nat, cutoff: real): CubicSegment
    requires i + 1 < |points|
  {
    if points[i].time < cutoff && Width(points, i) > 0.0
    then SplitRight(SegmentCubic(points, i), CutParameter(points, i, cutoff)) else SegmentCubic(points, i)
  }

  lemma CutParameterExact(points: seq<TimedPoint>, i: nat, cutoff: real)
    requires i + 1 < |points| && points[i].time <= points[i + 1].time && cutoff <= points[i + 1].time
    ensures points[i].time + CutParameter(points, i, cutoff) * Width(points, i) == Max(points[i].time, cutoff)
  {
    if points[i].time < cutoff {
      QuotientBounds(cutoff - points[i].time, Width(points, i));
    }
  }

  lemma CutStart(points: seq<TimedPoint>, i: nat, cutoff: real, scale: real)
    requires Plotted(points, cutoff, scale)
    requires i + 1 < |points| && points[i].time <= points[i + 1].time && cutoff <= points[i + 1].time
    ensures CutCubic(points, i, cutoff).start.x == Max(points[i].point.x, 0.0)
    ensures CutCubic(points, i, cutoff).end == points[i + 1].point
  {
    hide SegmentCubic, CutParameter, Bezier.SplitRight;
    var c := SegmentCubic(points, i);
    SegmentEnds(points, i);
    if points[i].time < cutoff {
      var p := CutParameter(points, i, cutoff);
      Bezier.SplitKeepsThirds(c.start.x, c.control1.x, c.control2.x, c.end.x, p);
      CutParameterExact(points, i, cutoff);
      ScaledCut(points[i].time, points[i + 1].time, cutoff, scale, p);
    } else {
      ProductNonNegative(scale, points[i].time - cutoff);
    }
  }

  lemma ScaledCut(t0: real, t1: real, cutoff: real, scale: real, p: real)
    requires t0 + p * (t1 - t0) == cutoff && t0 < cutoff && scale > 0.0
    ensures scale * (t0 - cutoff) + (scale * (t1 - cutoff) - scale * (t0 - cutoff)) * p == 0.0
    ensures scale * (t0 - cutoff) < 0.0
  {
    assert scale * (t0 - cutoff) + (scale * (t1 - cutoff) - scale * (t0 - cutoff)) * p
        == scale * (t0 + p * (t1 - t0) - cutoff);
  }

  lemma CutThirds(points: seq<TimedPoint>, i: nat, cutoff: real)
    requires i + 1 < |points|
    ensures var c := CutCubic(points, i, cutoff); Bezier.AtThirds(c.start.x, c.control1.x, c.control2.x, c.end.x)
  {
    hide SegmentCubic, CutParameter, Width;
    var c := SegmentCubic(points, i);
    SegmentEnds(points, i);
    Bezier.SplitKeepsThirds(c.start.x, c.control1.x, c.control2.x, c.end.x, CutParameter(points, i, cutoff));
  }

  lemma ThirdsOrdered(p0: real, p1: real, p2: real, p3: real)
    requires Bezier.AtThirds(p0, p1, p2, p3) && 0.0 <= p0 <= p3
    ensures p0 <= p1 <= p2 <= p3
  {}

  /** For ordered timestamps every abscissa correction is a no-op: what is stored is exactly the cut curve. */
  lemma CorrectionsAreNoOps(points: seq<TimedPoint>, i: nat, cutoff: real, scale: real)
    requires Plotted(points, cutoff, scale)
    requires i + 1 < |points| && points[i].time <= points[i + 1].time && cutoff <= points[i + 1].time
    ensures EmittedCubic(points, i, cutoff) == CutCubic(points, i, cutoff)
  {
    hide SegmentCubic, SplitRight, CutParameter;
    var c := CutCubic(points, i, cutoff);
    CutStart(points, i, cutoff, scale);
    CutThirds(points, i, cutoff);
    ProductNonNegative(scale, points[i + 1].time - cutoff);
    ProductMonotone(points[i].time - cutoff, points[i + 1].time - cutoff, scale);
    ThirdsOrdered(c.start.x, c.control1.x, c.control2.x, c.end.x);
    if points[i].time < cutoff {
      ProductNonNegative(scale, cutoff - points[i].time);
      assert c.start.x == 0.0;
    }
  }

  /** The stored cubic retraces the unclipped one from the cutoff on, and starts where the cutoff falls. */
  lemma ClippedIsRestriction(points: seq<TimedPoint>, i: nat, cutoff: real, scale: real, t: real)
    requires Plotted(points, cutoff, scale)
    requires i + 1 < |points| && points[i].time <= points[i + 1].time && cutoff <= points[i + 1].time
    ensures var p := CutParameter(points, i, cutoff);
            && CubicPoint(EmittedCubic(points, i, cutoff), t) == CubicPoint(SegmentCubic(points, i), Along(p, t))
            && points[i].time + p * Width(points, i) == Max(points[i].time, cutoff)
    ensures EmittedCubic(points, i, cutoff).start.x == Max(points[i].point.x, 0.0)
    ensures EmittedCubic(points, i, cutoff).end == points[i + 1].point
  {
    hide SegmentCubic, SplitRight, CutParameter, CubicPoint, EmittedCubic, Along;
    CorrectionsAreNoOps(points, i, cutoff, scale);
    CutStart(points, i, cutoff, scale);
    CutParameterExact(points, i, cutoff);
    SplitRetraces(SegmentCubic(points, i), CutParameter(points, i, cutoff), t);
    if !(points[i].time < cutoff && Width(points, i) > 0.0) {
      NoCut(points, i, cutoff);
      AlongZero(t);
    }
  }

  lemma AlongZero(t: real)
    ensures Along(0.0, t) == t
  {}

  /** Conversely no visible moment is lost: every time from the cutoff on has its point on the stored cubic. */
  lemma VisibleMomentIsDrawn(points: seq<TimedPoint>, i: nat, cutoff: real, scale: real, time: real) returns (t: real)
    requires Plotted(points, cutoff, scale)
    requires i + 1 < |points| && points[i].time < points[i + 1].time
    requires Max(points[i].time, cutoff) <= time <= points[i + 1].time
    ensures 0.0 <= t <= 1.0
    ensures CubicPoint(EmittedCubic(points, i, cutoff), t) ==
            CubicPoint(SegmentCubic(points, i), (time - points[i].time) / Width(points, i))
  {
    hide SegmentCubic, SplitRight, CubicPoint, EmittedCubic, CutParameter;
    var p := CutParameter(points, i, cutoff);
    var width := Width(points, i);
    var from := Max(points[i].time, cutoff);
    CutParameterExact(points, i, cutoff);
    t := if from == points[i + 1].time then 0.0 else (time - from) / (points[i + 1].time - from);
    ClippedIsRestriction(points, i, cutoff, scale, t);
    MomentParameter(points[i].time, width, from, time, p, t);
  }

  lemma MomentParameter(t0: real, width: real, from: real, time: real, p: real, t: real)
    requires width > 0.0 && t0 + p * width == from && from <= time <= t0 + width
    requires t == if from == t0 + width then 0.0 else (time - from) / (t0 + width - from)
    ensures 0.0 <= t <= 1.0
    ensures Along(p, t) == (time - t0) / width
  {
    var u := (time - t0) / width;
    assert u * width == time - t0;
    if from < t0 + width {
      QuotientBounds(time - from, t0 + width - from);
    }
    assert t * (t0 + width - from) == time - from;
    assert Along(p, t) * width == time - t0;
    CancelEqual(Along(p, t), u, width);
  }

  lemma CancelEqual(a: real, b: real, w: real)
    requires w != 0.0 && a * w == b * w
    ensures a == b
  {
    assert (a - b) * w == 0.0;
  }

  // --- C1 joins -------------------------------------------------------------

  /** The derivative of the ordinate in time at a segment's end, for a segment lasting the given time. */
  function EndVelocity(c: CubicSegment, duration: real): real {
    if duration == 0.0 then 0.0
    else Bezier.Derivative(c.start.y, c.control1.y, c.control2.y, c.end.y, 1.0) / duration
  }

  function StartVelocity(c: CubicSegment, duration: real): real {
    if duration == 0.0 then 0.0
    else Bezier.Derivative(c.start.y, c.control1.y, c.control2.y, c.end.y, 0.0) / duration
  }

  lemma EndDerivatives(c: CubicSegment)
    ensures Bezier.Derivative(c.start.y, c.control1.y, c.control2.y, c.end.y, 0.0) == 3.0 * (c.control1.y - c.start.y)
    ensures Bezier.Derivative(c.start.y, c.control1.y, c.control2.y, c.end.y, 1.0) == 3.0 * (c.end.y - c.control2.y)
  {}

  lemma ThirdOfRun(tangent: real, width: real)
    requires width > 0.0
    ensures 3.0 * (tangent * width / 3.0) / width == tangent
  {
    assert 3.0 * (tangent * width / 3.0) == tangent * width;
    var quotient := tangent * width / width;
    CancelEqual(quotient, tangent, width);
  }

  /** Both sides of a join leave the shared sample with its tangent as velocity: the curve is C1 there. */
  lemma JoinIsC1(points: seq<TimedPoint>, i: nat)
    requires 0 < i && i + 1 < |points|
    requires Width(points, i - 1) > 0.0 && Width(points, i) > 0.0
    ensures SegmentCubic(points, i - 1).end == SegmentCubic(points, i).start
    ensures EndVelocity(SegmentCubic(points, i - 1), Width(points, i - 1)) == Tangent(points, i)
    ensures StartVelocity(SegmentCubic(points, i), Width(points, i)) == Tangent(points, i)
  {
    hide Tangent, SegmentCubic, Bezier.Derivative, Width;
    var before := SegmentCubic(points, i - 1);
    var after := SegmentCubic(points, i);
    SegmentEnds(points, i - 1);
    SegmentEnds(points, i);
    EndDerivatives(before);
    EndDerivatives(after);
    ClampsAreNoOps(points, i - 1);
    ClampsAreNoOps(points, i);
    ThirdOfRun(Tangent(points, i), Width(points, i - 1));
    ThirdOfRun(Tangent(points, i), Width(points, i));
  }

  lemma SplitKeepsEndSlope(c: CubicSegment, p: real)
    ensures SplitRight(c, p).end.y - SplitRight(c, p).control2.y == (1.0 - p) * (c.end.y - c.control2.y)
  {
    hide Bezier.SplitRight;
    Bezier.SplitEndSlope(c.start.y, c.control1.y, c.control2.y, c.end.y, p);
  }

  /** How long the part of segment i right of the cutoff lasts. */
  function TimeLeft(points: seq<TimedPoint>, i: nat, cutoff: real): real
    requires i + 1 < |points|
  {
    (1.0 - CutParameter(points, i, cutoff)) * Width(points, i)
  }

  lemma CutLeavesTime(points: seq<TimedPoint>, i: nat, cutoff: real)
    requires i + 1 < |points| && Width(points, i) > 0.0 && cutoff < points[i + 1].time
    ensures 0.0 <= CutParameter(points, i, cutoff) < 1.0
  {
    QuotientBelowOne(cutoff - points[i].time, Width(points, i));
  }

  lemma EmittedEndSlope(points: seq<TimedPoint>, i: nat, cutoff: real)
    requires i + 1 < |points|
    ensures var c := EmittedCubic(points, i, cutoff);
            var whole := SegmentCubic(points, i);
            c.end.y - c.control2.y == (1.0 - CutParameter(points, i, cutoff)) * (whole.end.y - whole.control2.y)
  {
    hide SegmentCubic, CutParameter, SplitRight;
    SplitKeepsEndSlope(SegmentCubic(points, i), CutParameter(points, i, cutoff));
    if !(points[i].time < cutoff && Width(points, i) > 0.0) {
      NoCut(points, i, cutoff);
    }
  }

  /** Cutting a segment leaves its end velocity alone, so clipped runs are C1 as well. */
  lemma CutKeepsEndVelocity(points: seq<TimedPoint>, i: nat, cutoff: real)
    requires i + 1 < |points| && Width(points, i) > 0.0 && cutoff < points[i + 1].time
    ensures EndVelocity(EmittedCubic(points, i, cutoff), TimeLeft(points, i, cutoff)) ==
            EndVelocity(SegmentCubic(points, i), Width(points, i))
  {
    hide SegmentCubic, EmittedCubic, CutParameter, Width, Bezier.Derivative;
    var whole := SegmentCubic(points, i);
    var left := 1.0 - CutParameter(points, i, cutoff);
    EndDerivatives(whole);
    EndDerivatives(EmittedCubic(points, i, cutoff));
    CutLeavesTime(points, i, cutoff);
    EmittedEndSlope(points, i, cutoff);
    ScaledQuotient(3.0 * (whole.end.y - whole.control2.y), Width(points, i), left);
  }

  lemma UncutStartVelocity(points: seq<TimedPoint>, i: nat, cutoff: real)
    requires i + 1 < |points| && cutoff <= points[i].time
    ensures StartVelocity(EmittedCubic(points, i, cutoff), Width(points, i)) ==
            StartVelocity(SegmentCubic(points, i), Width(points, i))
  {
    hide SegmentCubic, Width, Bezier.Derivative;
    var c := EmittedCubic(points, i, cutoff);
    var whole := SegmentCubic(points, i);
    assert c.start.y == whole.start.y && c.control1.y == whole.control1.y;
    assert c.control2.y == whole.control2.y && c.end.y == whole.end.y;
  }

  /** The stored curve is C1 at every join of two segments of positive width, also right of a cut. */
  lemma EmittedJoinIsC1(points: seq<TimedPoint>, i: nat, cutoff: real)
    requires 0 < i && i + 1 < |points|
    requires Width(points, i - 1) > 0.0 && Width(points, i) > 0.0 && cutoff < points[i].time
    ensures EmittedCubic(points, i - 1, cutoff).end.y == EmittedCubic(points, i, cutoff).start.y
    ensures EndVelocity(EmittedCubic(points, i - 1, cutoff), TimeLeft(points, i - 1, cutoff)) ==
            StartVelocity(EmittedCubic(points, i, cutoff), Width(points, i))
  {
    hide SegmentCubic, CutParameter, EndVelocity, StartVelocity, SplitRight, TimeLeft;
    SegmentEnds(points, i - 1);
    SegmentEnds(points, i);
    JoinIsC1(points, i);
    CutKeepsEndVelocity(points, i - 1, cutoff);
    UncutStartVelocity(points, i, cutoff);
    EndUnchanged(points, i - 1, cutoff);
  }

  lemma EndUnchanged(points: seq<TimedPoint>, i: nat, cutoff: real)
    requires i + 1 < |points|
    ensures EmittedCubic(points, i, cutoff).end == KeepRight(points[i + 1].point)
  {
    hide SegmentCubic, CutParameter, Bezier.SplitRight;
    SegmentEnds(points, i);
  }

  lemma QuotientBelowOne(a: real, w: real)
    requires w > 0.0 && a < w
    ensures a / w < 1.0
  {}

  lemma ScaledQuotient(a: real, w: real, k: real)
    requires w > 0.0 && k > 0.0
    ensures k * w > 0.0 && (k * a) / (k * w) == a / w
  {
    var q := a / w;
    var r := (k * a) / (k * w);
    assert q * w == a;
    assert r * (k * w) == k * a;
    assert r * (k * w) == q * (k * w);
    CancelEqual(r, q, k * w);
  }
}
