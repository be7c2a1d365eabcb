/** One coordinate of a cubic Bezier curve: evaluation, splitting, derivative, monotonicity and Lipschitz bound. */
module Bezier {
  import opened Reals

  function Value(p0: real, p1: real, p2: real, p3: real, t: real): real {
    var inverse := 1.0 - t;
    inverse * inverse * inverse * p0 + 3.0 * inverse * inverse * t * p1 + 3.0 * inverse * t * t * p2 + t * t * t * p3
  }

  /** The derivative of Value in t; FirstOrderExpansion justifies the name. */
  function Derivative(p0: real, p1: real, p2: real, p3: real, t: real): real {
    var inverse := 1.0 - t;
    3.0 * inverse * inverse * (p1 - p0) + 6.0 * inverse * t * (p2 - p1) + 3.0 * t * t * (p3 - p2)
  }

  // --- Splitting ------------------------------------------------------------

  /** The three new control values of the De Casteljau right half at parameter p (the fourth is p3). */
  function SplitRight(p0: real, p1: real, p2: real, p3: real, p: real): (real, real, real) {
    var first := p0 + (p1 - p0) * p;
    var second := p1 + (p2 - p1) * p;
    var third := p2 + (p3 - p2) * p;
    var fourth := first + (second - first) * p;
    var fifth := second + (third - second) * p;
    (fourth + (fifth - fourth) * p, fifth, third)
  }

  lemma RestrictInline(p0: real, p1: real, p2: real, p3: real, p: real, t: real)
    ensures var first := p0 + (p1 - p0) * p;
            var second := p1 + (p2 - p1) * p;
            var third := p2 + (p3 - p2) * p;
            var fourth := first + (second - first) * p;
            var fifth := second + (third - second) * p;
            Value(fourth + (fifth - fourth) * p, fifth, third, p3, t) == Value(p0, p1, p2, p3, p + (1.0 - p) * t)
  {}

  /** Splitting reparametrises: the right half at t is the whole curve at p + (1 - p) t. */
  lemma SplitIsRestriction(p0: real, p1: real, p2: real, p3: real, p: real, t: real)
    ensures var q := SplitRight(p0, p1, p2, p3, p);
            Value(q.0, q.1, q.2, p3, t) == Value(p0, p1, p2, p3, p + (1.0 - p) * t)
  {
    RestrictInline(p0, p1, p2, p3, p, t);
  }

  lemma SplitEndSlope(p0: real, p1: real, p2: real, p3: real, p: real)
    ensures p3 - SplitRight(p0, p1, p2, p3, p).2 == (1.0 - p) * (p3 - p2)
  {
    var third := p2 + (p3 - p2) * p;
    assert p3 - third == (1.0 - p) * (p3 - p2);
  }

  // --- The split can be undone ------------------------------------------------

  lemma SecondDifference(a0: real, a1: real, a2: real, b0: real, b1: real, b2: real, end: real, p: real)
    ensures SplitRight(a0, a1, a2, end, p).2 - SplitRight(b0, b1, b2, end, p).2 == (1.0 - p) * (a2 - b2)
  {
  }

  lemma FirstDifference(a0: real, a1: real, b0: real, b1: real, p2: real, end: real, p: real)
    ensures SplitRight(a0, a1, p2, end, p).1 - SplitRight(b0, b1, p2, end, p).1 == (1.0 - p) * ((1.0 - p) * (a1 - b1))
  {
  }

  lemma StartDifference(a0: real, b0: real, p1: real, p2: real, end: real, p: real)
    ensures SplitRight(a0, p1, p2, end, p).0 - SplitRight(b0, p1, p2, end, p).0
         == (1.0 - p) * ((1.0 - p) * ((1.0 - p) * (a0 - b0)))
  {
  }

  lemma ZeroFactor(factor: real, x: real)
    requires factor > 0.0 && factor * x == 0.0
    ensures x == 0.0
  {
    if x != 0.0 {
      NonZeroProduct(factor, x);
    }
  }

  /** Before the end of the curve the right half determines the whole. */
  lemma SplitDetermines(a0: real, a1: real, a2: real, b0: real, b1: real, b2: real, end: real, p: real)
    requires p < 1.0 && SplitRight(a0, a1, a2, end, p) == SplitRight(b0, b1, b2, end, p)
    ensures a0 == b0 && a1 == b1 && a2 == b2
  {
    hide SplitRight;
    SecondDifference(a0, a1, a2, b0, b1, b2, end, p);
    ZeroFactor(1.0 - p, a2 - b2);
    FirstDifference(a0, a1, b0, b1, a2, end, p);
    ZeroFactor(1.0 - p, (1.0 - p) * (a1 - b1));
    ZeroFactor(1.0 - p, a1 - b1);
    StartDifference(a0, b0, a1, a2, end, p);
    ZeroFactor(1.0 - p, (1.0 - p) * ((1.0 - p) * (a0 - b0)));
    ZeroFactor(1.0 - p, (1.0 - p) * (a0 - b0));
    ZeroFactor(1.0 - p, a0 - b0);
  }

  /** At its end nothing but the end is left. */
  lemma SplitAtEnd(p0: real, p1: real, p2: real, end: real)
    ensures SplitRight(p0, p1, p2, end, 1.0) == (end, end, end)
  {
  }

  // --- Derivative -----------------------------------------------------------

  /** Value(t + h) = Value(t) + h Derivative(t) + O(h^2), with the remainder written out. */
  lemma FirstOrderExpansion(p0: real, p1: real, p2: real, p3: real, t: real, h: real)
    ensures Value(p0, p1, p2, p3, t + h) ==
            Value(p0, p1, p2, p3, t) + h * Derivative(p0, p1, p2, p3, t) +
            h * h * (3.0 * (p0 - 2.0 * p1 + p2) + (p3 - 3.0 * p2 + 3.0 * p1 - p0) * (3.0 * t + h))
  {}

  // --- Monotonicity ---------------------------------------------------------

  // The chord from t to u is (u - t) times an expression affine in p1 and p2; these are its three weights.
  function StartWeight(t: real, u: real): real { u * u + u * t + t * t }

  function FirstWeight(t: real, u: real): real { 3.0 - 6.0 * (u + t) + 3.0 * StartWeight(t, u) }

  function SecondWeight(t: real, u: real): real { 3.0 * (u + t) - 3.0 * StartWeight(t, u) }

  function ChordSlope(p0: real, p1: real, p2: real, p3: real, t: real, u: real): real {
    (p1 - p0) * FirstWeight(t, u) + (p2 - p0) * SecondWeight(t, u) + (p3 - p0) * StartWeight(t, u)
  }

  lemma Chord(p0: real, p1: real, p2: real, p3: real, t: real, u: real)
    ensures Value(p0, p1, p2, p3, u) - Value(p0, p1, p2, p3, t) == (u - t) * ChordSlope(p0, p1, p2, p3, t, u)
  {}

  lemma StartCorner(t: real, u: real)
    requires 0.0 <= t <= 1.0 && 0.0 <= u <= 1.0
    ensures 0.0 <= StartWeight(t, u) <= 3.0
  {
    ProductNonNegative(u, t);
    ProductNonNegative(u, 1.0 - u);
    ProductNonNegative(t, 1.0 - t);
    ProductNonNegative(u, 1.0 - t);
    SquareNonNegative(u);
    SquareNonNegative(t);
  }

  lemma FirstCorner(t: real, u: real)
    requires 0.0 <= t <= 1.0 && 0.0 <= u <= 1.0
    ensures 0.0 <= StartWeight(t, u) + FirstWeight(t, u) <= 3.0
  {
    var x, y := u + t - 1.0, u - t;
    SquareNonNegative(x);
    SquareNonNegative(y);
    assert StartWeight(t, u) + FirstWeight(t, u) == 3.0 * (x * x) + y * y;
    ProductNonNegative(u, 1.0 - u);
    ProductNonNegative(t, 1.0 - t);
    ProductNonNegative(u, 1.0 - t);
    ProductNonNegative(t, 1.0 - u);
    assert 3.0 - (StartWeight(t, u) + FirstWeight(t, u))
        == 4.0 * (u * (1.0 - u)) + 4.0 * (t * (1.0 - t)) + 2.0 * (u * (1.0 - t)) + 2.0 * (t * (1.0 - u));
  }

  lemma SecondCorner(t: real, u: real)
    requires 0.0 <= t <= 1.0 && 0.0 <= u <= 1.0
    ensures 0.0 <= StartWeight(t, u) + SecondWeight(t, u) <= 3.0
  {
    ProductNonNegative(u, t);
    ProductNonNegative(1.0 - u, 1.0 - t);
    SquareNonNegative(u - t);
    SquareNonNegative(u + t - 1.0);
    if u + t <= 1.0 {
      ProductNonNegative(u + t, 3.0 - 2.0 * (u + t));
    } else {
      ProductNonNegative(2.0 - (u + t), 2.0 * (u + t) - 1.0);
    }
  }

  lemma EndCorner(t: real, u: real)
    requires 0.0 <= t <= 1.0 && 0.0 <= u <= 1.0
    ensures 0.0 <= StartWeight(t, u) + FirstWeight(t, u) + SecondWeight(t, u) <= 3.0
  {
    StartCorner(1.0 - t, 1.0 - u);
  }

  /** The chord weights at the four corners of the control box lie in [0, 3]. */
  lemma CornerWeights(t: real, u: real)
    requires 0.0 <= t <= 1.0 && 0.0 <= u <= 1.0
    ensures 0.0 <= StartWeight(t, u) <= 3.0
    ensures 0.0 <= StartWeight(t, u) + FirstWeight(t, u) <= 3.0
    ensures 0.0 <= StartWeight(t, u) + SecondWeight(t, u) <= 3.0
    ensures 0.0 <= StartWeight(t, u) + FirstWeight(t, u) + SecondWeight(t, u) <= 3.0
  {
    StartCorner(t, u);
    FirstCorner(t, u);
    SecondCorner(t, u);
    EndCorner(t, u);
  }

  lemma CornerProduct(d: real, w: real)
    requires 0.0 <= d && 0.0 <= w <= 3.0
    ensures 0.0 <= d * w <= 3.0 * d
  {
    ProductNonNegative(d, w);
    ProductNonNegative(d, 3.0 - w);
  }

  lemma CornerShare(low: real, high: real, k: real)
    requires low <= high && 0.0 <= k <= 3.0
    ensures 0.0 <= high * k - low * k <= 3.0 * high - 3.0 * low
  {
    var share := high - low;
    CornerProduct(share, k);
    assert share * k == high * k - low * k;
  }

  /** On one side of the box's diagonal a point is a mixture of three corners. */
  lemma TriangleCorners(a: real, b: real, d: real, both: real, second: real, none: real)
    requires 0.0 <= a <= b <= d
    requires 0.0 <= both <= 3.0 && 0.0 <= second <= 3.0 && 0.0 <= none <= 3.0
    ensures 0.0 <= a * both + (b * second - a * second) + (d * none - b * none) <= 3.0 * d
  {
    CornerProduct(a, both);
    CornerShare(a, b, second);
    CornerShare(b, d, none);
  }

  lemma RegroupCorners(a: real, b: real, d: real, wa: real, wb: real, w: real, both: real, second: real)
    requires both == w + wa + wb && second == w + wb
    ensures a * both + (b * second - a * second) + (d * w - b * w) == a * wa + b * wb + d * w
  {}

  /** An expression affine in a and in b on the box [0, d]^2 is bounded by its values at the four corners. */
  lemma BoxCorners(a: real, b: real, d: real, wa: real, wb: real, w: real)
    requires 0.0 <= a <= d && 0.0 <= b <= d
    requires 0.0 <= w <= 3.0 && 0.0 <= w + wa <= 3.0 && 0.0 <= w + wb <= 3.0 && 0.0 <= w + wa + wb <= 3.0
    ensures 0.0 <= a * wa + b * wb + d * w <= 3.0 * d
  {
    var both := w + wa + wb;
    if a <= b {
      var second := w + wb;
      TriangleCorners(a, b, d, both, second, w);
      RegroupCorners(a, b, d, wa, wb, w, both, second);
    } else {
      var first := w + wa;
      TriangleCorners(b, a, d, both, first, w);
      RegroupCorners(b, a, d, wb, wa, w, both, first);
    }
  }

  /** Both inner control values lie between the end values. */
  predicate Boxed(p0: real, p1: real, p2: real, p3: real) {
    Min(p0, p3) <= p1 <= Max(p0, p3) && Min(p0, p3) <= p2 <= Max(p0, p3)
  }

  lemma RisingSlope(p0: real, p1: real, p2: real, p3: real, t: real, u: real)
    requires p0 <= p1 <= p3 && p0 <= p2 <= p3 && 0.0 <= t <= 1.0 && 0.0 <= u <= 1.0
    ensures 0.0 <= ChordSlope(p0, p1, p2, p3, t, u) <= 3.0 * (p3 - p0)
  {
    hide FirstWeight, SecondWeight, StartWeight;
    CornerWeights(t, u);
    BoxCorners(p1 - p0, p2 - p0, p3 - p0, FirstWeight(t, u), SecondWeight(t, u), StartWeight(t, u));
  }

  lemma ScaleSlope(h: real, slope: real, limit: real)
    requires 0.0 <= h && 0.0 <= slope <= limit
    ensures 0.0 <= h * slope <= limit * h
  {
    ProductNonNegative(h, slope);
    ProductMonotone(slope, limit, h);
  }

  lemma RisingMonotone(p0: real, p1: real, p2: real, p3: real, t: real, u: real)
    requires p0 <= p1 <= p3 && p0 <= p2 <= p3 && 0.0 <= t <= u <= 1.0
    ensures 0.0 <= Value(p0, p1, p2, p3, u) - Value(p0, p1, p2, p3, t) <= 3.0 * (p3 - p0) * (u - t)
  {
    hide Value, ChordSlope;
    RisingSlope(p0, p1, p2, p3, t, u);
    Chord(p0, p1, p2, p3, t, u);
    ScaleSlope(u - t, ChordSlope(p0, p1, p2, p3, t, u), 3.0 * (p3 - p0));
  }

  lemma FallingSlope(p0: real, p1: real, p2: real, p3: real, t: real, u: real)
    requires p3 <= p1 <= p0 && p3 <= p2 <= p0 && 0.0 <= t <= 1.0 && 0.0 <= u <= 1.0
    ensures 0.0 <= -ChordSlope(p0, p1, p2, p3, t, u) <= 3.0 * (p0 - p3)
  {
    hide FirstWeight, SecondWeight, StartWeight;
    CornerWeights(t, u);
    BoxCorners(p0 - p1, p0 - p2, p0 - p3, FirstWeight(t, u), SecondWeight(t, u), StartWeight(t, u));
  }

  lemma FallingMonotone(p0: real, p1: real, p2: real, p3: real, t: real, u: real)
    requires p3 <= p1 <= p0 && p3 <= p2 <= p0 && 0.0 <= t <= u <= 1.0
    ensures 0.0 <= Value(p0, p1, p2, p3, t) - Value(p0, p1, p2, p3, u) <= 3.0 * (p0 - p3) * (u - t)
  {
    hide Value, ChordSlope;
    FallingSlope(p0, p1, p2, p3, t, u);
    Chord(p0, p1, p2, p3, t, u);
    ScaleSlope(u - t, -ChordSlope(p0, p1, p2, p3, t, u), 3.0 * (p0 - p3));
  }

  /** A boxed cubic moves from p0 to p3 without turning back, at most three times as fast as a straight line. */
  lemma BoxedMonotone(p0: real, p1: real, p2: real, p3: real, t: real, u: real)
    requires Boxed(p0, p1, p2, p3) && 0.0 <= t <= u <= 1.0
    ensures p0 <= p3 ==> 0.0 <= Value(p0, p1, p2, p3, u) - Value(p0, p1, p2, p3, t) <= 3.0 * (p3 - p0) * (u - t)
    ensures p3 <= p0 ==> 0.0 <= Value(p0, p1, p2, p3, t) - Value(p0, p1, p2, p3, u) <= 3.0 * (p0 - p3) * (u - t)
  {
    hide Value;
    if p0 <= p3 {
      RisingMonotone(p0, p1, p2, p3, t, u);
    }
    if p3 <= p0 {
      FallingMonotone(p0, p1, p2, p3, t, u);
    }
  }

  lemma Ends(p0: real, p1: real, p2: real, p3: real)
    ensures Value(p0, p1, p2, p3, 0.0) == p0 && Value(p0, p1, p2, p3, 1.0) == p3
  {}

  lemma BoxedBetweenEnds(p0: real, p1: real, p2: real, p3: real, t: real)
    requires Boxed(p0, p1, p2, p3) && 0.0 <= t <= 1.0
    ensures Min(p0, p3) <= Value(p0, p1, p2, p3, t) <= Max(p0, p3)
  {
    hide Value;
    Ends(p0, p1, p2, p3);
    BoxedMonotone(p0, p1, p2, p3, 0.0, t);
    BoxedMonotone(p0, p1, p2, p3, t, 1.0);
  }

  // --- Controls at thirds ---------------------------------------------------

  /** The inner controls sit at one and two thirds of the way from p0 to p3. */
  predicate AtThirds(p0: real, p1: real, p2: real, p3: real) {
    p1 == p0 + (p3 - p0) / 3.0 && p2 == p0 + (p3 - p0) * (2.0 / 3.0)
  }

  lemma ThirdsAreLinear(p0: real, p1: real, p2: real, p3: real, t: real)
    requires AtThirds(p0, p1, p2, p3)
    ensures Value(p0, p1, p2, p3, t) == p0 + (p3 - p0) * t
  {}

  lemma SplitKeepsThirds(p0: real, p1: real, p2: real, p3: real, p: real)
    requires AtThirds(p0, p1, p2, p3)
    ensures var q := SplitRight(p0, p1, p2, p3, p);
            AtThirds(q.0, q.1, q.2, p3) && q.0 == p0 + (p3 - p0) * p
  {}
}
