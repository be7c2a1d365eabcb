/** What the tangents are: Fritsch and Butland's mean between two slopes, and a parabola's derivative at the ends. */
module CurveTangents {
  import opened Reals
  import opened CurveGeometry
  import opened CurveShape

  // --- Between two slopes of one sign ---------------------------------------------

  lemma ReciprocalOf(a: real, b: real)
    requires a != 0.0 && b != 0.0
    ensures a / b != 0.0 && 1.0 / (a / b) == b / a
  {
    NonZeroQuotient(a, b);
    var q := a / b;
    assert q * b == a;
    var r := 1.0 / q;
    assert r * q == 1.0;
    assert r * a == r * q * b;
    Cancelled(r, a, b);
  }

  lemma Cancelled(x: real, a: real, b: real)
    requires a != 0.0 && x * a == b
    ensures x == b / a
  {
  }

  /** How much the earlier slope counts: a third, and another third of the later interval's share in time. */
  function Share(beforeWidth: real, afterWidth: real): (r: real)
    requires beforeWidth > 0.0 && afterWidth > 0.0
  {
    (1.0 + afterWidth / (beforeWidth + afterWidth)) / 3.0
  }

  lemma ShareOfWeights(beforeWidth: real, afterWidth: real)
    requires beforeWidth > 0.0 && afterWidth > 0.0
    ensures var a, b := 2.0 * afterWidth + beforeWidth, afterWidth + 2.0 * beforeWidth;
      var s := Share(beforeWidth, afterWidth);
      a == s * (a + b) && b == (1.0 - s) * (a + b) && 1.0 / 3.0 < s < 2.0 / 3.0
    ensures Share(beforeWidth, afterWidth) > 0.5 <==> beforeWidth < afterWidth
    ensures Share(beforeWidth, afterWidth) < 0.5 <==> beforeWidth > afterWidth
  {
    var sum := beforeWidth + afterWidth;
    var f := afterWidth / sum;
    assert f * sum == afterWidth;
    HalfOf(f, sum, afterWidth);
  }

  lemma HalfOf(f: real, sum: real, part: real)
    requires sum > 0.0 && f * sum == part
    ensures f > 0.5 <==> 2.0 * part > sum
    ensures f < 0.5 <==> 2.0 * part < sum
    ensures 0.0 < part < sum ==> 0.0 < f < 1.0
  {
    CompareProducts(0.5, f, sum, 0.5 * sum, part);
    CompareProducts(f, 0.5, sum, part, 0.5 * sum);
    CompareProducts(0.0, f, sum, 0.0, part);
    CompareProducts(f, 1.0, sum, part, sum);
  }

  /** The reciprocal of the tangent is the mean of the reciprocal slopes, weighted by that share. */
  lemma HarmonicMean(before: real, after: real, beforeWidth: real, afterWidth: real)
    requires beforeWidth > 0.0 && afterWidth > 0.0 && before * after > 0.0
    ensures var t, s := HarmonicTangent(before, after, beforeWidth, afterWidth), Share(beforeWidth, afterWidth);
      && before != 0.0 && after != 0.0 && t != 0.0
      && 1.0 / t == s * (1.0 / before) + (1.0 - s) * (1.0 / after)
  {
    hide Share;
    var a, b := 2.0 * afterWidth + beforeWidth, afterWidth + 2.0 * beforeWidth;
    var s := Share(beforeWidth, afterWidth);
    SameSignQuotients(a, b, before, after);
    ShareOfWeights(beforeWidth, afterWidth);
    var sum := a / before + b / after;
    ReciprocalOf(a + b, sum);
    MeanOf(a, b, a + b, s, 1.0 / before, 1.0 / after, before, after);
  }

  lemma MeanOf(a: real, b: real, w: real, s: real, u: real, v: real, before: real, after: real)
    requires w > 0.0 && a == s * w && b == (1.0 - s) * w && before != 0.0 && after != 0.0
    requires u == 1.0 / before && v == 1.0 / after
    ensures (a / before + b / after) / w == s * u + (1.0 - s) * v
  {
    assert a / before == a * u && b / after == b * v;
    var sum := a / before + b / after;
    assert sum == (s * u + (1.0 - s) * v) * w;
    Cancelled(s * u + (1.0 - s) * v, w, sum);
  }

  /** A sample whose neighbouring slopes have the same sign and take time. */
  predicate Between(points: seq<TimedPoint>, i: nat) {
    && 0 < i && i + 1 < |points| && Width(points, i - 1) > 0.0 && Width(points, i) > 0.0
    && Slope(points, i - 1) * Slope(points, i) > 0.0
  }

  /**
   * Between two slopes of one sign the slope over the shorter interval weighs more: the tangent is nearer to it, as
   * distances go between reciprocals.
   */
  lemma ShorterIntervalWeighsMore(points: seq<TimedPoint>, i: nat)
    requires Between(points, i)
    ensures var before, after, t := Slope(points, i - 1), Slope(points, i), Tangent(points, i);
      && before != 0.0 && after != 0.0 && t != 0.0
      && var toBefore, toAfter := Abs(1.0 / t - 1.0 / before), Abs(1.0 / t - 1.0 / after);
      && (Width(points, i - 1) == Width(points, i) ==> toBefore == toAfter)
      && (Width(points, i - 1) < Width(points, i) ==> toBefore <= toAfter && (before != after ==> toBefore < toAfter))
      && (Width(points, i - 1) > Width(points, i) ==> toBefore >= toAfter && (before != after ==> toBefore > toAfter))
  {
    hide Slope, HarmonicTangent, Abs;
    HarmonicDistances(Slope(points, i - 1), Slope(points, i), Width(points, i - 1), Width(points, i));
  }

  lemma HarmonicDistances(before: real, after: real, beforeWidth: real, afterWidth: real)
    requires beforeWidth > 0.0 && afterWidth > 0.0 && before * after > 0.0
    ensures var t := HarmonicTangent(before, after, beforeWidth, afterWidth);
      && before != 0.0 && after != 0.0 && t != 0.0
      && var toBefore, toAfter := Abs(1.0 / t - 1.0 / before), Abs(1.0 / t - 1.0 / after);
      && (beforeWidth == afterWidth ==> toBefore == toAfter)
      && (beforeWidth < afterWidth ==> toBefore <= toAfter && (before != after ==> toBefore < toAfter))
      && (beforeWidth > afterWidth ==> toBefore >= toAfter && (before != after ==> toBefore > toAfter))
  {
    hide Share, HarmonicTangent, Abs;
    HarmonicMean(before, after, beforeWidth, afterWidth);
    ShareOfWeights(beforeWidth, afterWidth);
    if before != after {
      ReciprocalsDiffer(before, after);
    }
    var t := HarmonicTangent(before, after, beforeWidth, afterWidth);
    MeanDistances(1.0 / before, 1.0 / after, Share(beforeWidth, afterWidth), 1.0 / t);
  }

  lemma ReciprocalsDiffer(a: real, b: real)
    requires a != 0.0 && b != 0.0 && a != b
    ensures 1.0 / a != 1.0 / b
  {
    if 1.0 / a == 1.0 / b {
      assert 1.0 / a * a == 1.0 && 1.0 / b * b == 1.0;
      Cancelled(1.0 / a, a, 1.0);
      SameReciprocal(1.0 / a, a, b);
    }
  }

  lemma SameReciprocal(r: real, a: real, b: real)
    requires r * a == 1.0 && r * b == 1.0
    ensures a == b
  {
    assert a == a * (r * b);
    assert b == b * (r * a);
  }

  lemma MeanDistances(u: real, v: real, s: real, m: real)
    requires 0.0 < s < 1.0 && m == s * u + (1.0 - s) * v
    ensures (s == 0.5 ==> Abs(m - u) == Abs(m - v))
      && (s > 0.5 ==> Abs(m - u) <= Abs(m - v) && (u != v ==> Abs(m - u) < Abs(m - v)))
      && (s < 0.5 ==> Abs(m - u) >= Abs(m - v) && (u != v ==> Abs(m - u) > Abs(m - v)))
  {
    var d, r := u - v, 1.0 - s;
    assert m - u == -(r * d);
    assert m - v == s * d;
    ScaledDistances(s, r, d, Abs(m - u), Abs(m - v));
  }

  lemma ScaledDistances(s: real, r: real, d: real, near: real, far: real)
    requires 0.0 < s < 1.0 && r == 1.0 - s
    requires near == Abs(-(r * d)) && far == Abs(s * d)
    ensures s == 0.5 ==> near == far
    ensures s > 0.5 ==> near <= far && (d != 0.0 ==> near < far)
    ensures s < 0.5 ==> near >= far && (d != 0.0 ==> near > far)
  {
    ScaledAbs(r, d);
    ScaledAbs(s, d);
    if d != 0.0 {
      CompareProducts(r, s, Abs(d), near, far);
    }
  }

  lemma ScaledAbs(a: real, d: real)
    requires 0.0 < a
    ensures Abs(a * d) == a * Abs(d) && Abs(-(a * d)) == a * Abs(d)
  {
    if d < 0.0 {
      ProductNonNegative(a, -d);
    } else {
      ProductNonNegative(a, d);
    }
  }

  // --- On a straight line and on a parabola ------------------------------------------

  predicate OnParabola(p: TimedPoint, a: real, b: real, c: real) {
    p.point.y == a * p.time * p.time + b * p.time + c
  }

  function Derivative(p: TimedPoint, a: real, b: real): real { 2.0 * a * p.time + b }

  lemma ParabolaSlope(points: seq<TimedPoint>, i: nat, a: real, b: real, c: real)
    requires i + 1 < |points| && Width(points, i) > 0.0
    requires OnParabola(points[i], a, b, c) && OnParabola(points[i + 1], a, b, c)
    ensures Slope(points, i) == a * (points[i].time + points[i + 1].time) + b
  {
    RiseOfParabola(points[i].time, points[i + 1].time, points[i].point.y, points[i + 1].point.y, a, b, c);
    var t, u := points[i].time, points[i + 1].time;
    Cancelled(a * (t + u) + b, u - t, points[i + 1].point.y - points[i].point.y);
  }

  lemma RiseOfParabola(t: real, u: real, y: real, z: real, a: real, b: real, c: real)
    requires y == a * t * t + b * t + c && z == a * u * u + b * u + c
    ensures (a * (t + u) + b) * (u - t) == z - y
  {
  }

  /** On a straight line every tangent is its slope. */
  lemma LinesAreKept(points: seq<TimedPoint>, i: nat, b: real, c: real)
    requires i < |points| && |points| > 1
    requires forall k :: 0 <= k < |points| ==> OnParabola(points[k], 0.0, b, c)
    requires forall k :: 0 <= k < |points| - 1 ==> Width(points, k) > 0.0
    ensures Tangent(points, i) == b
  {
    hide OnParabola, EndpointTangent, HarmonicTangent;
    forall k | 0 <= k < |points| - 1 ensures Slope(points, k) == b {
      ParabolaSlope(points, k, 0.0, b, c);
    }
    var last := |points| - 1;
    if last > 1 {
      if i == 0 {
        EndpointOfLine(b, Width(points, 0), Width(points, 1));
      } else if i == last {
        EndpointOfLine(b, Width(points, last - 1), Width(points, last - 2));
      } else {
        HarmonicOfLine(b, Width(points, i - 1), Width(points, i));
      }
    }
  }

  lemma EndpointOfLine(s: real, first: real, second: real)
    requires first > 0.0 && second > 0.0
    ensures EndpointTangent(s, s, first, second) == s
  {
  }

  lemma HarmonicOfLine(s: real, before: real, after: real)
    requires before > 0.0 && after > 0.0
    ensures HarmonicTangent(s, s, before, after) == s
  {
  }

  /** What the shape rules leave of an end derivative: none against the first slope, no overshoot before a turn. */
  function Limited(derivative: real, first: real, second: real): real {
    if derivative * first <= 0.0 then 0.0
    else if first * second < 0.0 && Abs(derivative) > Abs(3.0 * first) then 3.0 * first
    else derivative
  }

  /**
   * Where the first three samples lie on a parabola the first tangent is its derivative, unless that goes against the
   * first slope or overshoots before a turn.
   */
  lemma ParabolaStart(points: seq<TimedPoint>, a: real, b: real, c: real)
    requires |points| > 2 && Width(points, 0) > 0.0 && Width(points, 1) > 0.0
    requires OnParabola(points[0], a, b, c) && OnParabola(points[1], a, b, c) && OnParabola(points[2], a, b, c)
    ensures Tangent(points, 0) == Limited(Derivative(points[0], a, b), Slope(points, 0), Slope(points, 1))
  {
    hide OnParabola, EndpointTangent, Limited, Slope;
    ParabolaSlope(points, 0, a, b, c);
    ParabolaSlope(points, 1, a, b, c);
    EndOfParabola(points[0].time, points[1].time, points[2].time, a, b, Width(points, 0), Width(points, 1),
                  Derivative(points[0], a, b), Slope(points, 0), Slope(points, 1));
  }

  /** So is the last one where the last three do. */
  lemma ParabolaEnd(points: seq<TimedPoint>, a: real, b: real, c: real)
    requires |points| > 2 && Width(points, |points| - 2) > 0.0 && Width(points, |points| - 3) > 0.0
    requires OnParabola(points[|points| - 1], a, b, c) && OnParabola(points[|points| - 2], a, b, c)
    requires OnParabola(points[|points| - 3], a, b, c)
    ensures var last := |points| - 1;
      Tangent(points, last)
      == Limited(Derivative(points[last], a, b), Slope(points, last - 1), Slope(points, last - 2))
  {
    hide OnParabola, EndpointTangent, Limited, Slope;
    var last := |points| - 1;
    ParabolaSlope(points, last - 1, a, b, c);
    ParabolaSlope(points, last - 2, a, b, c);
    EndOfParabola(points[last].time, points[last - 1].time, points[last - 2].time, a, b,
                  Width(points, last - 1), Width(points, last - 2),
                  Derivative(points[last], a, b), Slope(points, last - 1), Slope(points, last - 2));
  }

  /** The times run away from the end, forwards or backwards. */
  lemma EndOfParabola(t: real, u: real, v: real, a: real, b: real, first: real, second: real,
                      derivative: real, s1: real, s2: real)
    requires first > 0.0 && second > 0.0
    requires (u - t == first && v - u == second) || (t - u == first && u - v == second)
    requires derivative == 2.0 * a * t + b && s1 == a * (t + u) + b && s2 == a * (u + v) + b
    ensures EndpointTangent(s1, s2, first, second) == Limited(derivative, s1, s2)
  {
    hide EndpointTangent, Limited;
    DerivativeOfSlopes(t, u, v, a, b, first, second);
    EndpointIsLimited(derivative, s1, s2, first, second);
  }

  lemma EndpointIsLimited(derivative: real, s1: real, s2: real, first: real, second: real)
    requires first > 0.0 && second > 0.0
    requires derivative * (first + second) == (2.0 * first + second) * s1 - first * s2
    ensures EndpointTangent(s1, s2, first, second) == Limited(derivative, s1, s2)
  {
    hide Abs;
    Cancelled(derivative, first + second, (2.0 * first + second) * s1 - first * s2);
  }

  lemma DerivativeOfSlopes(t: real, u: real, v: real, a: real, b: real, first: real, second: real)
    requires first > 0.0
    requires (u - t == first && v - u == second) || (t - u == first && u - v == second)
    ensures (2.0 * a * t + b) * (first + second)
         == (2.0 * first + second) * (a * (t + u) + b) - first * (a * (u + v) + b)
  {
    if u - t == first {
      assert u == t + first && v == t + first + second;
    } else {
      assert u == t - first && v == t - first - second;
    }
  }
}
