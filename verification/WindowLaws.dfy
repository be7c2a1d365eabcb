/**
 * How the window moves: the easing is the cubic with flat ends, a transition starts where the window is and arrives.
 */
module WindowLaws {
  import opened Wrappers
  import opened Reals
  import opened CurveGeometry
  import opened HistoryWindow
  import Bezier

  // --- The easing -------------------------------------------------------------------

  /** The easing is the Bezier curve from 0 to 1 whose controls lie at its ends, so it starts and stops gently. */
  lemma SmoothstepIsTheEase(p: real)
    requires 0.0 <= p <= 1.0
    ensures Smoothstep(p) == Bezier.Value(0.0, 0.0, 1.0, 1.0, p)
    ensures Smoothstep(p) <= 3.0 * p * p && 1.0 - Smoothstep(p) <= 3.0 * (1.0 - p) * (1.0 - p)
  {
    EaseIs(p);
    SquareNonNegative(p);
    SquareNonNegative(1.0 - p);
    CubeNonNegative(p);
    CubeNonNegative(1.0 - p);
  }

  lemma EaseIs(p: real)
    requires 0.0 <= p <= 1.0
    ensures Smoothstep(p) == Bezier.Value(0.0, 0.0, 1.0, 1.0, p)
    ensures Smoothstep(p) == 3.0 * p * p - 2.0 * p * p * p
    ensures 1.0 - Smoothstep(p) == 3.0 * (1.0 - p) * (1.0 - p) - 2.0 * (1.0 - p) * (1.0 - p) * (1.0 - p)
  {
  }

  lemma CubeNonNegative(p: real)
    requires 0.0 <= p
    ensures 0.0 <= p * p * p
  {
    ProductNonNegative(p, p);
    ProductNonNegative(p * p, p);
  }

  /** What lies before the start and behind the end counts as start and end. */
  lemma SmoothstepEnds(p: real)
    ensures p <= 0.0 ==> Smoothstep(p) == 0.0
    ensures p >= 1.0 ==> Smoothstep(p) == 1.0
  {
  }

  /** In between it rises strictly. */
  lemma SmoothstepRisesStrictly(p: real, q: real)
    requires 0.0 <= p < q <= 1.0
    ensures Smoothstep(p) < Smoothstep(q)
  {
    var d := q - p;
    ProductNonNegative(p, 1.0 - p);
    ProductNonNegative(q, 1.0 - q);
    Difference(p, q);
    RiseIsPositive(d, d * d, p * (1.0 - p), q * (1.0 - q));
  }

  lemma Difference(p: real, q: real)
    requires 0.0 <= p < q <= 1.0
    ensures Smoothstep(q) - Smoothstep(p)
         == (q - p) * (3.0 * (p * (1.0 - p)) + 3.0 * (q * (1.0 - q)) + (q - p) * (q - p))
  {
  }

  lemma RiseIsPositive(d: real, square: real, e: real, f: real)
    requires d > 0.0 && square == d * d && 0.0 <= e && 0.0 <= f
    ensures d * (3.0 * e + 3.0 * f + square) > 0.0
  {
    SquareIsPositive(d, square);
    PositiveProduct(d, 3.0 * e + 3.0 * f + square);
  }

  lemma SquareIsPositive(d: real, square: real)
    requires d > 0.0 && square == d * d
    ensures square > 0.0
  {
    assert square / d == d;
  }

  lemma PositiveProduct(a: real, b: real)
    requires a > 0.0 && b > 0.0
    ensures a * b > 0.0
  {
  }

  // --- A transition --------------------------------------------------------------------

  /** Frames move the window strictly towards its target, all the way: at full progress it is there. */
  lemma FramesArrive(w: Window, progress: real)
    requires WindowOk(w) && w.running
    ensures var f := Advanced(w, progress);
      && f.start == w.start && f.target == w.target && f.known && f.running && f.progress == progress
      && (progress <= 0.0 ==> f.current == w.start) && (progress >= 1.0 ==> f.current == w.target)
      && (w.start < w.target && 0.0 <= w.progress < progress <= 1.0 ==> w.current < f.current)
  {
    hide Smoothstep;
    SmoothstepEnds(progress);
    assert w.current == InterpolateWindowEnd(w.start, w.target, w.progress);
    if w.start < w.target && 0.0 <= w.progress < progress <= 1.0 {
      SmoothstepRisesStrictly(w.progress, progress);
      InterpolationRises(w.start, w.target, w.progress, progress);
    }
  }

  lemma InterpolationRises(start: real, target: real, p: real, q: real)
    requires start < target && Smoothstep(p) < Smoothstep(q)
    ensures InterpolateWindowEnd(start, target, p) < InterpolateWindowEnd(start, target, q)
  {
    hide Smoothstep;
    StrictlyScaled(target - start, Smoothstep(p), Smoothstep(q));
  }

  lemma StrictlyScaled(d: real, s: real, t: real)
    requires d > 0.0 && s < t
    ensures d * s < d * t
  {
  }

  /**
   * A later newest sample starts a transition from where the window is; only the very first sample is shown at once.
   */
  lemma TransitionStartsWhereItIs(w: Window, newest: int, duration: nat)
    requires WindowOk(w)
    ensures var c, end := Cached(w, Some(newest), true, duration), newest as real;
      && c.known && c.target == end
      && (!w.known ==> c.start == c.current == end)
      && (w.known && end > w.target && duration > 0 ==>
            c.running && c.progress == 0.0 && c.start == c.current == w.current < end)
      && (w.known && end > w.target && duration == 0 ==> !c.running && c.start == c.current == end)
      && (w.known && end < w.target ==> !c.running && c.start == c.current == end)
      && (w.known && end == w.target ==> c == w)
  {
  }

  /** An attached model is shown at its newest sample at once, and an empty one is not shown. */
  lemma AttachingShowsTheNewest(w: Window, newest: Option<int>, duration: nat)
    ensures var c := Cached(w, newest, false, duration);
      && !c.running && (c.known <==> newest.Some?)
      && (newest.Some? ==> c.start == c.current == c.target == newest.value as real)
  {
  }

  // --- Pruning ----------------------------------------------------------------------------

  /** Pruning leaves at most one sample left of the window. */
  lemma PruningIsTight(prefix: seq<Sample>, cutoff: real)
    requires OrderedTimes(prefix)
    ensures forall i :: 0 < i < |Pruned(prefix, cutoff)| ==>
      Pruned(prefix, cutoff)[i].elapsedMilliseconds as real >= cutoff
    ensures Pruned(prefix, cutoff) == [] <==> prefix == []
  {
    hide Older;
    var inside, r := Older(prefix, cutoff), Pruned(prefix, cutoff);
    var dropped := DroppedBy(prefix, cutoff);
    forall i | 0 < i < |r| ensures r[i].elapsedMilliseconds as real >= cutoff {
      assert r[i] == prefix[dropped + i];
      LaterIsInside(prefix, cutoff, inside, dropped + i);
    }
  }

  lemma LaterIsInside(prefix: seq<Sample>, cutoff: real, inside: nat, i: nat)
    requires OrderedTimes(prefix) && inside == Older(prefix, cutoff) && inside <= i < |prefix|
    ensures prefix[i].elapsedMilliseconds as real >= cutoff
  {
    hide Older;
  }
}
