/** When two runs that pass through the same times draw the same cubic between two of them. */
module CurveEquality {
  import opened Reals
  import opened CurveGeometry
  import opened CurveShape
  import Bezier

  // --- One segment of two runs --------------------------------------------------

  predicate SamePlace(p: TimedPoint, q: TimedPoint) {
    p.time == q.time && p.point.x == q.point.x
  }

  /** Segments i of p and j of q span the same times and abscissae. */
  predicate SameSpan(p: seq<TimedPoint>, i: nat, q: seq<TimedPoint>, j: nat) {
    i + 1 < |p| && j + 1 < |q| && SamePlace(p[i], q[j]) && SamePlace(p[i + 1], q[j + 1])
  }

  predicate SameAbscissae(c: CubicSegment, d: CubicSegment) {
    c.start.x == d.start.x && c.control1.x == d.control1.x && c.control2.x == d.control2.x && c.end.x == d.end.x
  }

  /** They start and end alike, and rise alike at both ends unless they are straight. */
  predicate SameShape(p: seq<TimedPoint>, i: nat, q: seq<TimedPoint>, j: nat)
    requires i + 1 < |p| && j + 1 < |q|
  {
    && p[i].point.y == q[j].point.y && p[i + 1].point.y == q[j + 1].point.y
    && (Width(p, i) > 0.0 ==> Tangent(p, i) == Tangent(q, j) && Tangent(p, i + 1) == Tangent(q, j + 1))
  }

  lemma LiftDetermines(s: real, t: real, width: real)
    requires width > 0.0 && s * width / 3.0 == t * width / 3.0
    ensures s == t
  {
    assert (s - t) * width == 0.0;
    if s != t {
      NonZeroProduct(s - t, width);
    }
  }

  lemma SegmentsAgree(p: seq<TimedPoint>, i: nat, q: seq<TimedPoint>, j: nat)
    requires SameSpan(p, i, q, j)
    ensures var c, d := SegmentCubic(p, i), SegmentCubic(q, j);
      && SameAbscissae(c, d)
      && c.start == p[i].point && d.start == q[j].point && c.end == p[i + 1].point && d.end == q[j + 1].point
      && (c == d <==> SameShape(p, i, q, j))
  {
    hide Tangent;
    if Width(p, i) > 0.0 {
      ClampsAreNoOps(p, i);
      ClampsAreNoOps(q, j);
      ShapeOfLifts(p, i, q, j);
    }
  }

  lemma ShapeOfLifts(p: seq<TimedPoint>, i: nat, q: seq<TimedPoint>, j: nat)
    requires SameSpan(p, i, q, j) && Width(p, i) > 0.0
    ensures SameShape(p, i, q, j) <==>
      var w := Width(p, i);
      && p[i].point.y == q[j].point.y && p[i + 1].point.y == q[j + 1].point.y
      && p[i].point.y + Tangent(p, i) * w / 3.0 == q[j].point.y + Tangent(q, j) * w / 3.0
      && p[i + 1].point.y - Tangent(p, i + 1) * w / 3.0 == q[j + 1].point.y - Tangent(q, j + 1) * w / 3.0
  {
    hide Tangent;
    var w := Width(p, i);
    if p[i].point.y + Tangent(p, i) * w / 3.0 == q[j].point.y + Tangent(q, j) * w / 3.0
      && p[i].point.y == q[j].point.y
    {
      LiftDetermines(Tangent(p, i), Tangent(q, j), w);
    }
    if p[i + 1].point.y - Tangent(p, i + 1) * w / 3.0 == q[j + 1].point.y - Tangent(q, j + 1) * w / 3.0
      && p[i + 1].point.y == q[j + 1].point.y
    {
      LiftDetermines(Tangent(p, i + 1), Tangent(q, j + 1), w);
    }
  }

  /** Two whole segments agree after the cut exactly when they agree, or the cut leaves only their common end. */
  lemma CutsAgree(c: CubicSegment, d: CubicSegment, p: real)
    requires p <= 1.0
    requires SameAbscissae(c, d)
    ensures SplitRight(c, p) == SplitRight(d, p) <==> c == d || (p == 1.0 && c.end == d.end)
    ensures SplitRight(c, p).end == c.end && SplitRight(d, p).end == d.end
    ensures SameAbscissae(SplitRight(c, p), SplitRight(d, p))
  {
    hide Bezier.SplitRight;
    if c.end == d.end && p == 1.0 {
      Bezier.SplitAtEnd(c.start.x, c.control1.x, c.control2.x, c.end.x);
      Bezier.SplitAtEnd(c.start.y, c.control1.y, c.control2.y, c.end.y);
      Bezier.SplitAtEnd(d.start.y, d.control1.y, d.control2.y, d.end.y);
    } else if SplitRight(c, p) == SplitRight(d, p) && p != 1.0 {
      Bezier.SplitDetermines(c.start.y, c.control1.y, c.control2.y, d.start.y, d.control1.y, d.control2.y, c.end.y, p);
    }
  }

  /** What is stored of a cubic: nothing left of zero, and a cut one starts there. */
  function Kept(c: CubicSegment, cut: bool): CubicSegment {
    var start := if cut then Point(0.0, c.start.y) else c.start;
    CubicSegment(KeepRight(start), KeepRight(c.control1), KeepRight(c.control2), KeepRight(c.end))
  }

  /** Moving abscissae does not blur a difference in height. */
  lemma KeptAgree(c: CubicSegment, d: CubicSegment, cut: bool)
    requires SameAbscissae(c, d)
    ensures Kept(c, cut) == Kept(d, cut) <==> c == d
  {
  }

  /**
   * The same cubic is emitted exactly when the segments have the same shape, or the window begins right at their
   * common end, where nothing else of them is left.
   */
  lemma SameCubicExactly(p: seq<TimedPoint>, i: nat, q: seq<TimedPoint>, j: nat, cutoff: real)
    requires SameSpan(p, i, q, j) && cutoff <= p[i + 1].time
    ensures EmittedCubic(p, i, cutoff) == EmittedCubic(q, j, cutoff) <==>
      || SameShape(p, i, q, j)
      || (p[i].time < cutoff == p[i + 1].time && p[i + 1].point.y == q[j + 1].point.y)
  {
    hide SegmentCubic, SplitRight, Tangent, SameShape;
    SegmentsAgree(p, i, q, j);
    var c, d := SegmentCubic(p, i), SegmentCubic(q, j);
    if p[i].time < cutoff && Width(p, i) > 0.0 {
      var cut := CutParameter(p, i, cutoff);
      CutAtEnd(cutoff - p[i].time, Width(p, i));
      CutsAgree(c, d, cut);
      KeptAgree(SplitRight(c, cut), SplitRight(d, cut), true);
    } else {
      KeptAgree(c, d, false);
    }
  }

  lemma CutAtEnd(a: real, width: real)
    requires width > 0.0 && 0.0 <= a <= width
    ensures Clamp(a / width, 0.0, 1.0) == 1.0 <==> a == width
  {
    QuotientBounds(a, width);
    assert a / width * width == a;
  }

  // --- Tangents ---------------------------------------------------------------

  /** In a run without rise every tangent is flat. */
  lemma LevelTangent(p: seq<TimedPoint>, i: nat)
    requires i < |p| && forall k :: 0 <= k < |p| ==> p[k].point.y == p[0].point.y
    ensures Tangent(p, i) == 0.0
  {
    forall k | 0 <= k < |p| - 1 ensures Slope(p, k) == 0.0 {
      assert p[k].point.y == p[k + 1].point.y;
    }
  }

  /**
   * Where one run is the end of another and agrees with it from k on, the tangents at k and k + 1 agree if the point
   * before does too or has no time to it.
   */
  lemma TangentsAgreeBehind(p: seq<TimedPoint>, q: seq<TimedPoint>, offset: nat, k: nat)
    requires |q| == offset + |p| && 0 < k && k + 1 < |p|
    requires forall j :: 0 <= j < |p| ==> p[j].time == q[offset + j].time
    requires forall j :: k <= j < |p| ==> p[j] == q[offset + j]
    requires p[k - 1] == q[offset + (k - 1)] || Width(p, k - 1) <= 0.0
    ensures Tangent(p, k) == Tangent(q, offset + k) && Tangent(p, k + 1) == Tangent(q, offset + (k + 1))
  {
    hide EndpointTangent;
    assert Width(q, offset + k - 1) == Width(p, k - 1) && Width(q, offset + k) == Width(p, k);
    assert p[k - 1] == q[offset + (k - 1)] ==> Slope(q, offset + k - 1) == Slope(p, k - 1);
    assert Slope(q, offset + k) == Slope(p, k);
    if k + 2 < |p| {
      assert p[k + 2] == q[offset + (k + 2)] && p[k + 1] == q[offset + (k + 1)];
      assert Slope(q, offset + k + 1) == Slope(p, k + 1);
    }
  }
}
