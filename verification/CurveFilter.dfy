/**
 * How fast the filter follows: with the time since the last sample, with the size of a change, and not with the rate.
 */
module CurveFilter {
  import opened Wrappers
  import opened Reals
  import opened CurveGeometry
  import opened CurveBuilder

  // --- What is left of a difference ---------------------------------------------

  /** The more time has passed, the less is left, as with exp(-x). */
  ghost predicate Decreasing(decay: Decay) {
    forall a, b :: 0.0 < a <= b ==> decay(b) <= decay(a)
  }

  /** What is left after two stretches is left of what is left, as with exp(-x). */
  ghost predicate Multiplicative(decay: Decay) {
    forall a, b :: 0.0 < a && 0.0 < b ==> decay(a + b) == decay(a) * decay(b)
  }

  /** How far the filtered value is from the raw one. */
  function Lag(s: FilterState): real { Abs(s.filtered - s.raw) }

  /** How many time constants lie between two times. */
  function Constants(metric: Metric, change: real, from: int, to: int): (r: real)
    ensures from < to ==> r > 0.0
  {
    PositiveShare((to - from) as real / 1000.0, TimeConstant(metric, change));
    (to - from) as real / 1000.0 / TimeConstant(metric, change)
  }

  lemma PositiveShare(a: real, b: real)
    requires b > 0.0
    ensures a > 0.0 ==> a / b > 0.0
  {
  }

  lemma LeftOver(raw: real, elapsed: int, metric: Metric, p: FilterState, decay: Decay)
    requires p.elapsedMilliseconds < elapsed
    ensures var s := FilterRatio(raw, elapsed, metric, Some(p), decay);
      var d := decay(Constants(metric, Abs(raw - p.raw), p.elapsedMilliseconds, elapsed));
      && s.raw == raw && s.elapsedMilliseconds == elapsed && 0.0 < d < 1.0
      && s.filtered - raw == (p.filtered - raw) * d && Lag(s) == Abs(p.filtered - raw) * d
  {
    hide TimeConstant, Abs, FilterRatio, Constants;
    var d := decay(Constants(metric, Abs(raw - p.raw), p.elapsedMilliseconds, elapsed));
    var alpha := 1.0 - d;
    FilterStepIs(raw, elapsed, metric, p, decay, alpha);
    var s := FilterRatio(raw, elapsed, metric, Some(p), decay);
    Remainder(p.filtered, raw, d, alpha, s.filtered);
  }

  lemma FilterStepIs(raw: real, elapsed: int, metric: Metric, p: FilterState, decay: Decay, alpha: real)
    requires p.elapsedMilliseconds < elapsed
    requires alpha == 1.0 - decay(Constants(metric, Abs(raw - p.raw), p.elapsedMilliseconds, elapsed))
    ensures FilterRatio(raw, elapsed, metric, Some(p), decay)
         == FilterState(raw, p.filtered + (raw - p.filtered) * alpha, elapsed)
  {
    hide TimeConstant, Abs;
  }

  lemma Remainder(p: real, raw: real, d: real, alpha: real, filtered: real)
    requires 0.0 < d && alpha == 1.0 - d && filtered == p + (raw - p) * alpha
    ensures filtered - raw == (p - raw) * d && Abs(filtered - raw) == Abs(p - raw) * d
  {
    RemainderIs(p, raw, d, alpha, filtered);
    AbsScaled(p - raw, d, filtered - raw);
  }

  lemma RemainderIs(p: real, raw: real, d: real, alpha: real, filtered: real)
    requires alpha == 1.0 - d && filtered == p + (raw - p) * alpha
    ensures filtered - raw == (p - raw) * d
  {
  }

  lemma AbsNonNegative(x: real)
    ensures 0.0 <= Abs(x)
  {
  }

  lemma AbsScaled(x: real, d: real, y: real)
    requires 0.0 < d && y == x * d
    ensures Abs(y) == Abs(x) * d
  {
    if x < 0.0 {
      ProductNonNegative(-x, d);
    } else {
      ProductNonNegative(x, d);
    }
  }

  // --- Longer pauses and larger changes -------------------------------------------

  /** The longer the pause, the closer the filtered value comes to the new raw one. */
  lemma LongerPauseFollowsCloser(raw: real, sooner: int, later: int, metric: Metric, p: FilterState, decay: Decay)
    requires Decreasing(decay) && p.elapsedMilliseconds < sooner <= later
    ensures Lag(FilterRatio(raw, later, metric, Some(p), decay))
         <= Lag(FilterRatio(raw, sooner, metric, Some(p), decay))
  {
    hide FilterRatio, Lag, Constants, Decreasing, Abs;
    LeftOver(raw, sooner, metric, p, decay);
    LeftOver(raw, later, metric, p, decay);
    AbsNonNegative(p.filtered - raw);
    MoreConstants(metric, Abs(raw - p.raw), p.elapsedMilliseconds, sooner, later);
    LessIsLeft(decay, Constants(metric, Abs(raw - p.raw), p.elapsedMilliseconds, sooner),
               Constants(metric, Abs(raw - p.raw), p.elapsedMilliseconds, later), Abs(p.filtered - raw));
  }

  lemma LessIsLeft(decay: Decay, a: real, b: real, x: real)
    requires Decreasing(decay) && 0.0 < a <= b && 0.0 <= x
    ensures x * decay(b) <= x * decay(a)
  {
    ProductMonotone(decay(b), decay(a), x);
  }

  lemma MoreConstants(metric: Metric, change: real, from: int, sooner: int, later: int)
    requires from < sooner <= later
    ensures Constants(metric, change, from, sooner) <= Constants(metric, change, from, later)
  {
    hide TimeConstant;
    QuotientMonotone((sooner - from) as real / 1000.0, (later - from) as real / 1000.0, TimeConstant(metric, change));
  }

  lemma QuotientMonotone(a: real, b: real, c: real)
    requires a <= b && 0.0 < c
    ensures a / c <= b / c
  {
  }

  lemma QuotientAntitone(a: real, b: real, c: real)
    requires 0.0 <= a && 0.0 < b <= c
    ensures a / c <= a / b
  {
    var x, y := a / c, a / b;
    assert x * c == a && y * b == a;
    if x > y {
      QuotientSignNonNegative(a, b);
      ProductMonotone(b, c, y);
      ProductMonotone(y, x, c);
      StrictProduct(y, x, c);
    }
  }

  lemma QuotientSignNonNegative(a: real, b: real)
    requires 0.0 <= a && 0.0 < b
    ensures 0.0 <= a / b
  {
  }

  lemma StrictProduct(a: real, b: real, c: real)
    requires a < b && 0.0 < c
    ensures a * c < b * c
  {
  }

  /**
   * A larger change, up to the threshold, makes the time constant of the processor smaller, and none that of memory.
   */
  lemma LargerChangeIsFaster(small: real, large: real)
    requires small <= large
    ensures TimeConstant(Cpu, large) <= TimeConstant(Cpu, small)
    ensures CPU_SLOW_CHANGE <= small < large <= CPU_FAST_CHANGE ==> TimeConstant(Cpu, large) < TimeConstant(Cpu, small)
    ensures TimeConstant(Memory, large) == TimeConstant(Memory, small)
  {
  }

  /** Between the thresholds equal steps of the change make equal steps of the time constant. */
  lemma TimeConstantIsAffine(a: real, b: real)
    requires CPU_SLOW_CHANGE <= a <= CPU_FAST_CHANGE && CPU_SLOW_CHANGE <= b <= CPU_FAST_CHANGE
    ensures TimeConstant(Cpu, (a + b) / 2.0) == (TimeConstant(Cpu, a) + TimeConstant(Cpu, b)) / 2.0
  {
  }

  lemma LargerChangeMoreConstants(metric: Metric, small: real, large: real, from: int, to: int)
    requires small <= large && from < to
    ensures Constants(metric, small, from, to) <= Constants(metric, large, from, to)
  {
    hide TimeConstant;
    LargerChangeIsFaster(small, large);
    QuotientAntitone((to - from) as real / 1000.0, TimeConstant(metric, large), TimeConstant(metric, small));
  }

  /** From the same filtered value, a larger change of the raw one is followed at least as closely. */
  lemma LargerChangeFollowsCloser(raw: real, elapsed: int, metric: Metric, p: FilterState, q: FilterState, decay: Decay)
    requires Decreasing(decay) && p.filtered == q.filtered
    requires p.elapsedMilliseconds == q.elapsedMilliseconds < elapsed && Abs(raw - p.raw) <= Abs(raw - q.raw)
    ensures Lag(FilterRatio(raw, elapsed, metric, Some(q), decay))
         <= Lag(FilterRatio(raw, elapsed, metric, Some(p), decay))
  {
    hide FilterRatio, Lag, TimeConstant, Constants, Decreasing, Abs;
    LeftOver(raw, elapsed, metric, p, decay);
    LeftOver(raw, elapsed, metric, q, decay);
    var from := p.elapsedMilliseconds;
    AbsNonNegative(p.filtered - raw);
    LargerChangeMoreConstants(metric, Abs(raw - p.raw), Abs(raw - q.raw), from, elapsed);
    LessIsLeft(decay, Constants(metric, Abs(raw - p.raw), from, elapsed),
        Constants(metric, Abs(raw - q.raw), from, elapsed),
               Abs(p.filtered - raw));
  }

  /** One time constant of 3, 1.8 or 0.35 seconds leaves the same share of the difference. */
  lemma OneTimeConstant(raw: real, p: FilterState, decay: Decay)
    ensures Lag(FilterRatio(raw, p.elapsedMilliseconds + 3000, Memory, Some(p), decay))
         == Abs(p.filtered - raw) * decay(1.0)
    ensures Abs(raw - p.raw) <= CPU_SLOW_CHANGE ==>
      Lag(FilterRatio(raw, p.elapsedMilliseconds + 1800, Cpu, Some(p), decay)) == Abs(p.filtered - raw) * decay(1.0)
    ensures Abs(raw - p.raw) >= CPU_FAST_CHANGE ==>
      Lag(FilterRatio(raw, p.elapsedMilliseconds + 350, Cpu, Some(p), decay)) == Abs(p.filtered - raw) * decay(1.0)
  {
    hide FilterRatio, Lag, Constants, Abs;
    OneConstant(p.elapsedMilliseconds, Abs(raw - p.raw));
    LeftOver(raw, p.elapsedMilliseconds + 3000, Memory, p, decay);
    LeftOver(raw, p.elapsedMilliseconds + 1800, Cpu, p, decay);
    LeftOver(raw, p.elapsedMilliseconds + 350, Cpu, p, decay);
  }

  lemma OneConstant(from: int, change: real)
    ensures Constants(Memory, change, from, from + 3000) == 1.0
    ensures change <= CPU_SLOW_CHANGE ==> Constants(Cpu, change, from, from + 1800) == 1.0
    ensures change >= CPU_FAST_CHANGE ==> Constants(Cpu, change, from, from + 350) == 1.0
  {
  }

  // --- The rate of sampling does not matter ---------------------------------------

  /** While the raw value and the time constant stay, two steps are one. */
  lemma TwoStepsAreOne(raw: real, between: int, elapsed: int, metric: Metric, p: FilterState, decay: Decay)
    requires Multiplicative(decay) && p.elapsedMilliseconds < between < elapsed
    requires TimeConstant(metric, Abs(raw - p.raw)) == TimeConstant(metric, 0.0)
    ensures var first := FilterRatio(raw, between, metric, Some(p), decay);
      FilterRatio(raw, elapsed, metric, Some(first), decay) == FilterRatio(raw, elapsed, metric, Some(p), decay)
  {
    hide FilterRatio, TimeConstant, Constants, Multiplicative, Abs, Lag;
    var first := FilterRatio(raw, between, metric, Some(p), decay);
    NoChange(raw);
    LeftOver(raw, between, metric, p, decay);
    LeftOver(raw, elapsed, metric, first, decay);
    LeftOver(raw, elapsed, metric, p, decay);
    SameConstants(metric, Abs(raw - p.raw), p.elapsedMilliseconds, between);
    SameConstants(metric, Abs(raw - p.raw), p.elapsedMilliseconds, elapsed);
    LeftAfterBoth(metric, p.elapsedMilliseconds, between, elapsed, p.filtered - raw, decay);
    var twice, once := FilterRatio(raw, elapsed, metric, Some(first), decay),
        FilterRatio(raw, elapsed, metric, Some(p), decay);
    Composed(p.filtered - raw, first.filtered - raw, twice.filtered - raw, once.filtered - raw,
             decay(Constants(metric, 0.0, p.elapsedMilliseconds, between)),
             decay(Constants(metric, 0.0, between, elapsed)),
             decay(Constants(metric, 0.0, p.elapsedMilliseconds, elapsed)));
  }

  lemma Composed(x: real, y: real, twice: real, once: real, d: real, e: real, de: real)
    requires y == x * d && twice == y * e && once == x * de && x * d * e == x * de
    ensures twice == once
  {
  }

  lemma NoChange(raw: real)
    ensures Abs(raw - raw) == 0.0
  {
  }

  lemma SameConstants(metric: Metric, change: real, from: int, to: int)
    requires TimeConstant(metric, change) == TimeConstant(metric, 0.0)
    ensures Constants(metric, change, from, to) == Constants(metric, 0.0, from, to)
  {
  }

  lemma LeftAfterBoth(metric: Metric, from: int, between: int, to: int, x: real, decay: Decay)
    requires Multiplicative(decay) && from < between < to
    ensures x * decay(Constants(metric, 0.0, from, between)) * decay(Constants(metric, 0.0, between, to))
         == x * decay(Constants(metric, 0.0, from, to))
  {
    hide Constants, Multiplicative;
    var a, b := Constants(metric, 0.0, from, between), Constants(metric, 0.0, between, to);
    ConstantsAdd(metric, from, between, to);
    LeftOfBoth(decay, a, b);
    Associate(x, decay(a), decay(b));
  }

  lemma LeftOfBoth(decay: Decay, a: real, b: real)
    requires Multiplicative(decay) && 0.0 < a && 0.0 < b
    ensures decay(a + b) == decay(a) * decay(b)
  {
  }

  lemma Associate(x: real, a: real, b: real)
    ensures x * a * b == x * (a * b)
  {
  }

  lemma ConstantsAdd(metric: Metric, from: int, between: int, to: int)
    ensures Constants(metric, 0.0, from, to)
        == Constants(metric, 0.0, from, between) + Constants(metric, 0.0, between, to)
  {
    hide TimeConstant;
    QuotientsAdd((between - from) as real / 1000.0, (to - between) as real / 1000.0, TimeConstant(metric, 0.0));
  }

  lemma QuotientsAdd(a: real, b: real, c: real)
    requires c > 0.0
    ensures (a + b) / c == a / c + b / c
  {
  }

  /** The raw value stays from sample a to sample i, in a run with advancing times. */
  ghost predicate Held(samples: seq<Sample>, view: View, a: nat, i: nat) {
    && AllPresent(samples, view, a, i + 1) && a <= i
    && forall k :: a < k <= i ==>
      Raw(samples, view, k) == Raw(samples, view, a)
        && samples[k - 1].elapsedMilliseconds < samples[k].elapsedMilliseconds
  }

  /**
   * While the raw value is held, what is left of a difference depends on the time alone, however often it is sampled.
   */
  lemma {:induction false} HeldValueIsApproached(samples: seq<Sample>, view: View, a: nat, i: nat)
    requires Multiplicative(view.decay) && Held(samples, view, a, i) && a < i
    ensures var raw := Raw(samples, view, a);
      var t := Constants(view.metric, 0.0, samples[a].elapsedMilliseconds, samples[i].elapsedMilliseconds);
      && samples[a].elapsedMilliseconds < samples[i].elapsedMilliseconds
      && Filtered(samples, view, i).filtered - raw == (Filtered(samples, view, a).filtered - raw) * view.decay(t)
  {
    hide FilterRatio, TimeConstant, Filtered, Raw, Constants, Multiplicative, Abs, Lag;
    var raw := Raw(samples, view, a);
    var p := Filtered(samples, view, i - 1);
    StateIs(samples, view, i - 1);
    FilterStep(samples, view, i);
    LeftOver(raw, samples[i].elapsedMilliseconds, view.metric, p, view.decay);
    assert p.raw == raw by { assert i - 1 == a || Raw(samples, view, i - 1) == raw; }
    if a < i - 1 {
      HeldValueIsApproached(samples, view, a, i - 1);
      LeftAfterBoth(view.metric, samples[a].elapsedMilliseconds, samples[i - 1].elapsedMilliseconds,
                    samples[i].elapsedMilliseconds, Filtered(samples, view, a).filtered - raw, view.decay);
    }
    NoChange(raw);
  }

  lemma StateIs(samples: seq<Sample>, view: View, i: nat)
    requires i < |samples| && Present(samples, view, i)
    ensures Filtered(samples, view, i).raw == Raw(samples, view, i)
    ensures Filtered(samples, view, i).elapsedMilliseconds == samples[i].elapsedMilliseconds
  {
  }

  lemma FilterStep(samples: seq<Sample>, view: View, i: nat)
    requires 0 < i < |samples| && Present(samples, view, i - 1) && Present(samples, view, i)
    ensures Filtered(samples, view, i) ==
      FilterRatio(Raw(samples, view, i), samples[i].elapsedMilliseconds, view.metric,
                  Some(Filtered(samples, view, i - 1)), view.decay)
  {
  }
}
