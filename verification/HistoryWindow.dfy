/**
 * The rolling 60-second history and the animated window that shows it (src/sysmetrics/system_metric_history_model.cpp,
 * src/dashboard/resource_history_series.cpp). Milliseconds are integers in samples and reals in the window.
 */
module HistoryWindow {
  import opened Wrappers
  import opened Reals
  import opened CurveGeometry

  const HISTORY_WINDOW := 60000

  // --- The window -----------------------------------------------------------

  /** `progress` is how far the running transition has come. */
  datatype Window = Window(start: real, current: real, target: real, known: bool, running: bool, progress: real) {
    function Cutoff(): real {
      current - HISTORY_WINDOW as real
    }
  }

  function Smoothstep(progress: real): real {
    var bounded := Clamp(progress, 0.0, 1.0);
    bounded * bounded * (3.0 - 2.0 * bounded)
  }

  function InterpolateWindowEnd(start: real, target: real, progress: real): real {
    start + (target - start) * Smoothstep(progress)
  }

  function At(end: real): Window {
    Window(end, end, end, true, false, 0.0)
  }

  /** What cacheModel does to the window when it finds this newest sample. */
  function Cached(w: Window, newest: Option<int>, animate: bool, duration: nat): Window {
    if newest.None? then (if animate then w else w.(known := false, running := false))
    else
      var end := newest.value as real;
      if !animate then At(end)
      else if !w.known then At(end).(running := w.running)
      else if end > w.target then
        if duration > 0 then Window(w.current, w.current, end, true, true, 0.0) else At(end)
      else if end < w.target then At(end)
      else w
  }

  /** A frame of the running transition. */
  function Advanced(w: Window, progress: real): Window {
    w.(current := InterpolateWindowEnd(w.start, w.target, progress), progress := progress)
  }

  function Arrived(w: Window): Window {
    w.(start := w.target, current := w.target, running := false)
  }

  ghost predicate WindowOk(w: Window) {
    && (w.running ==>
      w.known && w.start <= w.target && w.current == InterpolateWindowEnd(w.start, w.target, w.progress))
    && (w.known ==> w.current <= w.target && (!w.running ==> w.current == w.target))
  }

  lemma UnitProducts(p: real, q: real)
    requires 0.0 <= p <= 1.0 && 0.0 <= q <= 1.0
    ensures p * p <= p && q * q <= q && p * q <= q && p * q <= p
  {
    assert p * (1.0 - p) >= 0.0 && q * (1.0 - q) >= 0.0 && q * (1.0 - p) >= 0.0 && p * (1.0 - q) >= 0.0;
  }

  lemma Rise(p: real, q: real)
    requires 0.0 <= p <= q <= 1.0
    ensures p * p * (3.0 - 2.0 * p) <= q * q * (3.0 - 2.0 * q)
  {
    UnitProducts(p, q);
    var pp, pq, qq := p * p, p * q, q * q;
    var c := 3.0 * p + 3.0 * q - 2.0 * pp - 2.0 * pq - 2.0 * qq;
    RiseBound(p, q, pp, pq, qq);
    ProductNonNegative(q - p, c);
    assert q * q * (3.0 - 2.0 * q) - p * p * (3.0 - 2.0 * p)
        == (q - p) * (3.0 * p + 3.0 * q - 2.0 * (p * p) - 2.0 * (p * q) - 2.0 * (q * q));
  }

  lemma RiseBound(p: real, q: real, pp: real, pq: real, qq: real)
    requires pp <= p && qq <= q && pq <= p && pq <= q
    ensures 3.0 * p + 3.0 * q - 2.0 * pp - 2.0 * pq - 2.0 * qq >= 0.0
  {
  }

  /** Easing never runs backwards and stays between its ends. */
  lemma SmoothstepRises(p: real, q: real)
    requires p <= q
    ensures 0.0 <= Smoothstep(p) <= Smoothstep(q) <= 1.0
  {
    var a, b := Clamp(p, 0.0, 1.0), Clamp(q, 0.0, 1.0);
    Rise(a, b);
    EasedUnit(a);
    EasedUnit(b);
    assert Smoothstep(p) == a * a * (3.0 - 2.0 * a) && Smoothstep(q) == b * b * (3.0 - 2.0 * b);
  }

  lemma EasedUnit(a: real)
    requires 0.0 <= a <= 1.0
    ensures 0.0 <= a * a * (3.0 - 2.0 * a) <= 1.0
  {
    Rise(0.0, a);
    Rise(a, 1.0);
  }

  /** The displayed end only moves towards the target. */
  lemma FrameMovesForward(w: Window, progress: real)
    requires WindowOk(w) && w.running && w.progress <= progress
    ensures WindowOk(Advanced(w, progress)) && w.current <= Advanced(w, progress).current <= w.target
  {
    hide Smoothstep;
    SmoothstepRises(w.progress, progress);
    Scaled(w.target - w.start, Smoothstep(w.progress), Smoothstep(progress));
  }

  lemma Scaled(d: real, s: real, t: real)
    requires d >= 0.0 && s <= t <= 1.0
    ensures d * s <= d * t <= d
  {
    assert d * (t - s) >= 0.0 && d * (1.0 - t) >= 0.0;
  }

  lemma ArrivalMovesForward(w: Window)
    requires WindowOk(w) && w.running
    ensures WindowOk(Arrived(w)) && w.current <= Arrived(w).current
  {
  }

  lemma CachingMovesForward(w: Window, newest: Option<int>, duration: nat)
    requires WindowOk(w) && (w.known && newest.Some? ==> newest.value as real >= w.target)
    ensures var w' := Cached(w, newest, true, duration);
      && WindowOk(w') && (w.known ==> w.current <= w'.current && w'.known)
      && (newest.Some? ==> w'.known && w'.target == newest.value as real)
      && (newest.None? ==> w' == w)
  {
  }

  // --- The model ------------------------------------------------------------

  /** How many samples at the front are older than the cutoff. */
  function Older(samples: seq<Sample>, cutoff: real): (n: nat)
    ensures n <= |samples|
    ensures forall i :: 0 <= i < n ==> samples[i].elapsedMilliseconds as real < cutoff
    ensures n < |samples| ==> samples[n].elapsedMilliseconds as real >= cutoff
  {
    if samples == [] || samples[0].elapsedMilliseconds as real >= cutoff then 0 else 1 + Older(samples[1..], cutoff)
  }

  /** With a whole number of milliseconds as the cutoff no reals are involved. */
  lemma OlderWhole(samples: seq<Sample>, cutoff: int)
    ensures var n := Older(samples, cutoff as real);
      && (forall i :: 0 <= i < n ==> samples[i].elapsedMilliseconds < cutoff)
      && (n < |samples| ==> samples[n].elapsedMilliseconds >= cutoff)
  {
  }

  /** The model after an append: nothing that is more than 60 s older than the new sample. */
  function Appended(samples: seq<Sample>, s: Sample): seq<Sample> {
    samples[Older(samples, (s.elapsedMilliseconds - HISTORY_WINDOW) as real)..] + [s]
  }

  /** With timestamps in order the model keeps exactly the samples of the last 60 seconds. */
  lemma AppendKeepsTheRecent(samples: seq<Sample>, s: Sample)
    requires OrderedTimes(samples + [s])
    ensures OrderedTimes(Appended(samples, s))
    ensures forall x :: x in Appended(samples, s) <==>
      (x in samples || x == s) && x.elapsedMilliseconds >= s.elapsedMilliseconds - HISTORY_WINDOW
  {
    hide Older;
    var n := Older(samples, (s.elapsedMilliseconds - HISTORY_WINDOW) as real);
    OlderWhole(samples, s.elapsedMilliseconds - HISTORY_WINDOW);
    var all, r := samples + [s], Appended(samples, s);
    assert forall i :: 0 <= i < |r| ==> r[i] == all[n + i];
    assert all[n].elapsedMilliseconds >= s.elapsedMilliseconds - HISTORY_WINDOW;
    forall x | x in samples && x.elapsedMilliseconds >= s.elapsedMilliseconds - HISTORY_WINDOW ensures x in r {
      var i :| 0 <= i < |samples| && samples[i] == x;
      assert all[i] == x && r[i - n] == x;
    }
    forall i | 0 <= i < |r| ensures r[i].elapsedMilliseconds >= s.elapsedMilliseconds - HISTORY_WINDOW {
      assert i > 0 ==> all[n].elapsedMilliseconds <= all[n + i].elapsedMilliseconds;
    }
    forall x | x in r ensures x in samples || x == s {
      var i :| 0 <= i < |r| && r[i] == x;
      assert all[n + i] == x;
    }
  }

  // --- The view -------------------------------------------------------------

  /** The retained prefix after pruning: everything from the closest sample left of the cutoff. */
  function Pruned(prefix: seq<Sample>, cutoff: real): (r: seq<Sample>) {
    prefix[DroppedBy(prefix, cutoff)..]
  }

  function DroppedBy(prefix: seq<Sample>, cutoff: real): (n: nat)
    ensures n <= |prefix|
  {
    var inside := Older(prefix, cutoff);
    if inside > 0 then inside - 1 else 0
  }

  /**
   * Of everything in the model since it was attached, the first `dropped` samples are gone and the rest is there, in
   * order. Something was dropped only behind a sample that is itself left of the displayed window.
   */
  ghost predicate Shown(seen: seq<Sample>, dropped: nat, retained: seq<Sample>, samples: seq<Sample>, w: Window) {
    && dropped <= |seen| && seen[dropped..] == retained + samples
    && OrderedTimes(seen)
    && (dropped > 0 ==> retained != [] && retained[0].elapsedMilliseconds as real < w.Cutoff())
  }

  ghost predicate ViewOk(seen: seq<Sample>, dropped: nat, retained: seq<Sample>, samples: seq<Sample>, w: Window) {
    && Shown(seen, dropped, retained, samples, w)
    && WindowOk(w)
    && WindowIsLast(seen, w)
  }

  /** Nothing inside the displayed 60 seconds is missing, nor the closest sample before them. */
  lemma DisplayedWindowIsCovered(seen: seq<Sample>, dropped: nat, retained: seq<Sample>, samples: seq<Sample>,
                                 w: Window, i: nat)
    requires Shown(seen, dropped, retained, samples, w) && i < |seen|
    requires seen[i].elapsedMilliseconds as real >= w.Cutoff()
      || i + 1 == |seen| || seen[i + 1].elapsedMilliseconds as real >= w.Cutoff()
    ensures i >= dropped && seen[i] == (retained + samples)[i - dropped]
  {
    if i < dropped {
      DroppedIsOld(seen, dropped, retained, samples, w, i);
    } else {
      assert seen[i] == seen[dropped..][i - dropped];
    }
  }

  lemma DroppedIsOld(seen: seq<Sample>, dropped: nat, retained: seq<Sample>, samples: seq<Sample>, w: Window, i: nat)
    requires Shown(seen, dropped, retained, samples, w) && i < dropped
    ensures i + 1 < |seen|
    ensures seen[i].elapsedMilliseconds as real < w.Cutoff() && seen[i + 1].elapsedMilliseconds as real < w.Cutoff()
  {
    assert |seen[dropped..]| > 0;
    assert seen[dropped] == seen[dropped..][0] == retained[0];
    assert seen[i].elapsedMilliseconds <= seen[dropped].elapsedMilliseconds;
    assert i + 1 < dropped ==> seen[i + 1].elapsedMilliseconds <= seen[dropped].elapsedMilliseconds;
  }

  lemma PruningKeepsShown(seen: seq<Sample>, dropped: nat, prefix: seq<Sample>, samples: seq<Sample>, w: Window)
    requires Shown(seen, dropped, prefix, samples, w)
    ensures Shown(seen, dropped + DroppedBy(prefix, w.Cutoff()), Pruned(prefix, w.Cutoff()), samples, w)
  {
    var n := DroppedBy(prefix, w.Cutoff());
    assert seen[dropped + n..] == seen[dropped..][n..];
    assert (prefix + samples)[n..] == prefix[n..] + samples;
  }

  /** The window may move forward; before anything has been dropped it may be anywhere. */
  lemma LaterWindowKeepsShown(seen: seq<Sample>, dropped: nat, prefix: seq<Sample>, samples: seq<Sample>, w: Window,
                              w': Window)
    requires Shown(seen, dropped, prefix, samples, w) && (dropped > 0 ==> w.current <= w'.current)
    ensures Shown(seen, dropped, prefix, samples, w')
  {
  }

  lemma FrameKeepsView(seen: seq<Sample>, dropped: nat, retained: seq<Sample>, samples: seq<Sample>, w: Window,
                       progress: real)
    requires ViewOk(seen, dropped, retained, samples, w) && w.running && w.progress <= progress
    ensures ViewOk(seen, dropped, retained, samples, Advanced(w, progress))
    ensures w.current <= Advanced(w, progress).current
  {
    hide Smoothstep, WindowOk, Shown;
    FrameMovesForward(w, progress);
    LaterWindowKeepsShown(seen, dropped, retained, samples, w, Advanced(w, progress));
  }

  lemma ArrivalKeepsView(seen: seq<Sample>, dropped: nat, retained: seq<Sample>, samples: seq<Sample>, w: Window)
    requires ViewOk(seen, dropped, retained, samples, w) && w.running
    ensures ViewOk(seen, dropped, retained, samples, Arrived(w)) && w.current <= Arrived(w).current
  {
    hide Smoothstep, Shown;
    ArrivalMovesForward(w);
    LaterWindowKeepsShown(seen, dropped, retained, samples, w, Arrived(w));
  }

  // --- The objects ----------------------------------------------------------

  class SystemMetricHistoryModel {
    var samples: seq<Sample>
    var observer: ResourceHistorySeries? // the series connected to this model's signals

    constructor ()
      ensures samples == [] && observer == null
    {
      samples, observer := [], null;
    }

    /** Rows are removed at the front and one is appended; the observer hears before and after each change. */
    method AppendSample(s: Sample)
      requires observer != null ==> observer.model == this && observer.Valid()
      requires observer != null && observer.seen != [] ==>
        observer.seen[|observer.seen| - 1].elapsedMilliseconds <= s.elapsedMilliseconds
      modifies this`samples, observer
      ensures samples == Appended(old(samples), s)
      ensures observer != null ==>
        && observer.model == this && observer.Valid() && observer.seen == old(observer.seen) + [s]
        && (old(observer.window.known) ==> old(observer.window.current) <= observer.window.current)
    {
      hide ViewOk, Cached, Pruned;
      var removeCount := CountOlder(samples, s.elapsedMilliseconds - HISTORY_WINDOW);
      if removeCount > 0 {
        if observer != null {
          observer.CaptureRemovedPrefix(0, removeCount - 1);
        }
        samples := samples[removeCount..];
        if observer != null {
          observer.RowsRemoved(removeCount);
        }
      }
      samples := samples + [s];
      if observer != null {
        observer.RowsInserted(s);
      }
    }

    /** The loop that finds how many rows to remove. */
    static method CountOlder(samples: seq<Sample>, cutoff: int) returns (removeCount: nat)
      ensures removeCount == Older(samples, cutoff as real)
    {
      removeCount := 0;
      while removeCount < |samples| && samples[removeCount].elapsedMilliseconds < cutoff
        invariant removeCount <= |samples|
        invariant forall i :: 0 <= i < removeCount ==> samples[i].elapsedMilliseconds < cutoff
      {
        removeCount := removeCount + 1;
      }
      OlderIs(samples, cutoff as real, removeCount);
    }
  }

  lemma {:induction false} OlderIs(samples: seq<Sample>, cutoff: real, n: nat)
    requires n <= |samples| && forall i :: 0 <= i < n ==> (samples[i].elapsedMilliseconds as real) < cutoff
    requires n < |samples| ==> samples[n].elapsedMilliseconds as real >= cutoff
    ensures Older(samples, cutoff) == n
  {
    if n > 0 {
      OlderIs(samples[1..], cutoff, n - 1);
    }
  }

  class ResourceHistorySeries {
    var model: SystemMetricHistoryModel?
    var samples: seq<Sample>
    var retained: seq<Sample>
    var window: Window
    var transitionDuration: nat
    ghost var seen: seq<Sample>
    ghost var dropped: nat

    /** The state at quiescent points. */
    ghost predicate Valid()
      reads this, model
    {
      && (model != null ==> model.samples == samples)
      && ViewOk(seen, dropped, retained, samples, window)
    }

    constructor ()
      ensures Valid() && model == null && seen == [] && fresh(this)
    {
      model := null;
      samples, retained, seen, dropped := [], [], [], 0;
      window := Window(0.0, 0.0, 0.0, false, false, 0.0);
      transitionDuration := 350;
    }

    /** Attaching starts over: nothing of the previous model is kept. */
    method SetModel(m: SystemMetricHistoryModel)
      requires m.observer == null && OrderedTimes(m.samples)
      requires model != null ==> model.observer == this && model != m
      modifies this, m`observer, (if model == null then {} else {model})`observer
      ensures model == m && m.observer == this && Valid() && seen == m.samples && dropped == 0
    {
      hide ViewOk, Shown, Cached, Pruned, DroppedBy, WindowOk, OrderedTimes, Newest;
      AttachedView(window, m.samples, transitionDuration);
      if model != null {
        model.observer := null;
      }
      model := m;
      m.observer := this;
      retained := [];
      seen, dropped := m.samples, 0;
      CacheModel(false);
    }

    /** The model is about to remove rows `first` to `last`; rows at the front are kept aside. */
    method CaptureRemovedPrefix(first: nat, last: nat)
      requires model != null && first <= last < |model.samples|
      modifies `retained
      ensures retained == if first == 0 then old(retained) + model.samples[..last + 1] else old(retained)
    {
      if first != 0 {
        return;
      }
      retained := retained + model.samples[first..last + 1];
    }

    method RowsRemoved(ghost count: nat)
      requires model != null && count <= |samples| && model.samples == samples[count..]
      requires count <= |retained|
      requires var before := retained[..|retained| - count];
        retained == before + samples[..count] && ViewOk(seen, dropped, before, samples, window)
      modifies this
      ensures model == old(model) && seen == old(seen) && Valid()
      ensures old(window.known) ==> window.known && old(window.current) <= window.current
      ensures window.known ==> old(window.known)
    {
      hide Cached, Pruned, Shown, WindowOk, ViewOk, OrderedTimes, Newest;
      RemovalCached(seen, dropped, retained[..|retained| - count], samples, window, count, transitionDuration);
      CacheModel(true);
      ViewAgain(seen, dropped, retained, samples, window);
    }

    method RowsInserted(ghost s: Sample)
      requires model != null && model.samples == samples + [s] && ViewOk(seen, dropped, retained, samples, window)
      requires seen != [] ==> seen[|seen| - 1].elapsedMilliseconds <= s.elapsedMilliseconds
      modifies this
      ensures model == old(model) && seen == old(seen) + [s] && Valid()
      ensures old(window.known) ==> window.known && old(window.current) <= window.current
    {
      hide Cached, Pruned, Shown, WindowOk, OrderedTimes;
      InsertionIsSeen(seen, dropped, retained, samples, window, s);
      CachingMovesForward(window, Newest(model.samples), transitionDuration);
      LaterWindowKeepsShown(seen + [s], dropped, retained, model.samples, window,
                            Cached(window, Newest(model.samples), true, transitionDuration));
      seen := seen + [s];
      CacheModel(true);
    }

    /** cacheModel: take the model's samples, move the window, and prune what has left it. */
    method CacheModel(animate: bool)
      requires model != null
      requires var w := Cached(window, Newest(model.samples), animate, transitionDuration);
        WindowOk(w) && Shown(seen, dropped, retained, model.samples, w)
      modifies `samples, `retained, `window, `dropped
      ensures samples == model.samples
      ensures window == Cached(old(window), Newest(model.samples), animate, transitionDuration)
      ensures retained == Pruned(old(retained), window.Cutoff())
      ensures dropped == old(dropped) + DroppedBy(old(retained), window.Cutoff())
      ensures Shown(seen, dropped, retained, samples, window)
    {
      hide Shown, DroppedBy;
      var newest := Newest(model.samples);
      var w := window;
      if !animate {
        w := w.(running := false, known := newest.Some?);
        if newest.Some? {
          w := At(newest.value as real);
        }
      } else if !w.known && newest.Some? {
        w := At(newest.value as real).(running := w.running);
      } else if newest.Some? && newest.value as real > w.target {
        var displayed := w.current;
        w := Window(displayed, displayed, newest.value as real, true, false, 0.0);
        if transitionDuration > 0 {
          w := w.(running := true);
        } else {
          w := w.(start := w.target, current := w.target);
        }
      } else if newest.Some? && (newest.value as real) < w.target {
        w := At(newest.value as real);
      }
      window := w;
      PruningKeepsShown(seen, dropped, retained, model.samples, w);
      var keepFrom := FirstKept(retained, w.Cutoff());
      dropped := dropped + DroppedBy(retained, w.Cutoff());
      retained := retained[keepFrom..];
      samples := model.samples;
    }

    /** The pruning loop: it stops at the first sample inside, and keeps the one before. */
    static method FirstKept(prefix: seq<Sample>, cutoff: real) returns (keepFrom: nat)
      ensures keepFrom == DroppedBy(prefix, cutoff)
    {
      var firstInside := 0;
      while firstInside < |prefix| && (prefix[firstInside].elapsedMilliseconds as real) < cutoff
        invariant 0 <= firstInside <= |prefix|
        invariant forall i :: 0 <= i < firstInside ==> (prefix[i].elapsedMilliseconds as real) < cutoff
      {
        firstInside := firstInside + 1;
      }
      OlderIs(prefix, cutoff, firstInside);
      keepFrom := if firstInside > 0 then firstInside - 1 else 0;
    }

    /** A frame of the animation. */
    method ValueChanged(progress: real)
      requires Valid() && window.running && window.progress <= progress
      modifies `window
      ensures Valid() && window == Advanced(old(window), progress) && old(window.current) <= window.current
    {
      hide ViewOk, WindowOk, InterpolateWindowEnd;
      FrameKeepsView(seen, dropped, retained, samples, window, progress);
      window := Advanced(window, progress);
    }

    method AnimationFinished()
      requires Valid() && window.running
      modifies `window
      ensures Valid() && window == Arrived(old(window))
      ensures !window.running && window.current == window.target == old(window.target)
      ensures old(window.current) <= window.current
    {
      hide ViewOk, WindowOk;
      ArrivalKeepsView(seen, dropped, retained, samples, window);
      window := Arrived(window);
    }

    method SetTransitionDuration(duration: int)
      requires Valid()
      modifies `transitionDuration
      ensures Valid() && transitionDuration == if duration < 0 then 0 else duration
    {
      transitionDuration := if duration < 0 then 0 else duration;
    }
  }

  function Newest(samples: seq<Sample>): Option<int> {
    if samples == [] then None else Some(samples[|samples| - 1].elapsedMilliseconds)
  }

  /** A freshly attached view shows the model as it is. */
  lemma AttachedView(w: Window, samples: seq<Sample>, duration: nat)
    requires OrderedTimes(samples)
    ensures var w' := Cached(w, Newest(samples), false, duration);
      && WindowOk(w') && Shown(samples, 0, [], samples, w') && ViewOk(samples, 0, [], samples, w')
      && Pruned([], w'.Cutoff()) == [] && DroppedBy([], w'.Cutoff()) == 0
  {
    assert samples[0..] == [] + samples;
  }

  /** Rows that leave the model are still there in the prefix. */
  lemma RemovalIsRetained(seen: seq<Sample>, dropped: nat, before: seq<Sample>, samples: seq<Sample>, w: Window,
                          count: nat)
    requires ViewOk(seen, dropped, before, samples, w) && count <= |samples|
    ensures Shown(seen, dropped, before + samples[..count], samples[count..], w)
  {
    assert before + samples == before + samples[..count] + samples[count..];
  }

  /** What cacheModel finds after a removal: the window moves on, if at all, to the last sample seen. */
  lemma RemovalCached(seen: seq<Sample>, dropped: nat, before: seq<Sample>, samples: seq<Sample>, w: Window,
                      count: nat, duration: nat)
    requires ViewOk(seen, dropped, before, samples, w) && count <= |samples|
    ensures var w' := Cached(w, Newest(samples[count..]), true, duration);
      && WindowOk(w') && Shown(seen, dropped, before + samples[..count], samples[count..], w')
      && WindowIsLast(seen, w') && w'.known == w.known && (w.known ==> w.current <= w'.current)
  {
    hide Cached, Shown, WindowOk, OrderedTimes;
    RemovalIsRetained(seen, dropped, before, samples, w, count);
    NewestIsLast(seen, dropped, before + samples[..count], samples[count..], w);
    CachingMovesForward(w, Newest(samples[count..]), duration);
    LaterWindowKeepsShown(seen, dropped, before + samples[..count], samples[count..], w,
                          Cached(w, Newest(samples[count..]), true, duration));
  }

  ghost predicate WindowIsLast(seen: seq<Sample>, w: Window) {
    && w.known == (seen != [])
    && (seen != [] ==> w.target == seen[|seen| - 1].elapsedMilliseconds as real)
  }

  lemma ViewAgain(seen: seq<Sample>, dropped: nat, retained: seq<Sample>, samples: seq<Sample>, w: Window)
    requires Shown(seen, dropped, retained, samples, w) && WindowOk(w) && WindowIsLast(seen, w)
    ensures ViewOk(seen, dropped, retained, samples, w)
  {
    hide Shown, WindowOk;
  }

  /** The newest row of a shortened model is the last sample seen, or there is none. */
  lemma NewestIsLast(seen: seq<Sample>, dropped: nat, retained: seq<Sample>, samples: seq<Sample>, w: Window)
    requires Shown(seen, dropped, retained, samples, w)
    ensures samples != [] ==> seen != [] && Newest(samples) == Some(seen[|seen| - 1].elapsedMilliseconds)
  {
    if samples != [] {
      assert (retained + samples)[|retained + samples| - 1] == seen[dropped..][|seen| - dropped - 1];
    }
  }

  lemma InsertionIsSeen(seen: seq<Sample>, dropped: nat, retained: seq<Sample>, samples: seq<Sample>, w: Window,
                        s: Sample)
    requires ViewOk(seen, dropped, retained, samples, w)
    requires seen != [] ==> seen[|seen| - 1].elapsedMilliseconds <= s.elapsedMilliseconds
    ensures Shown(seen + [s], dropped, retained, samples + [s], w)
  {
    var more := seen + [s];
    assert more[dropped..] == seen[dropped..] + [s];
    assert retained + (samples + [s]) == retained + samples + [s];
    forall i, j | 0 <= i < j < |more| ensures more[i].elapsedMilliseconds <= more[j].elapsedMilliseconds {
      assert i < |seen| - 1 ==> seen[i].elapsedMilliseconds <= seen[|seen| - 1].elapsedMilliseconds;
    }
  }
}
