/** What each event leads to, over every run of the weather service, in terms of what can be seen from outside. */
module WeatherLaws {
  import opened Wrappers
  import opened WeatherRetry

  /** A run: how the service was set up, and what has happened since. */
  datatype Run = Run(config: Config, cached: Option<Snapshot>, stale: bool, credentials: bool, events: seq<Event>) {
    function State(): Machine { After(Initial(config, cached, stale, credentials), events) }

    function Then(e: Event): Run { this.(events := events + [e]) }
  }

  lemma OneMoreEvent(run: Run, e: Event)
    ensures run.Then(e).State() == if Enabled(run.State(), e) then Next(run.State(), e) else run.State()
  {
    var more := run.events + [e];
    assert more[..|more| - 1] == run.events;
  }

  // --- Failures ------------------------------------------------------------------

  function Least(a: int, b: int): int { if a < b then a else b }

  /**
   * After an ordinary failure a timer leads to the next attempt, no sooner than the server asked and than 30 seconds or
   * the refresh interval; after an authentication failure nothing happens until the user asks for it.
   */
  lemma FailureDecides(run: Run, authentication: bool, retryAfter: int)
    requires Enabled(run.State(), Failed(authentication, retryAfter))
    ensures var m := Next(run.State(), Failed(authentication, retryAfter));
      && m.pending == [] && m.status == Error && m.stale == m.snapshot.fetched.Some?
      && m.snapshot == run.State().snapshot && m.location == run.State().location && m.resolved == run.State().resolved
      && if authentication then m.authenticationStopped && m.timer.None?
         else
           && !m.authenticationStopped && m.timer.Some? && Enabled(m, TimerFired)
           && m.timer.value >= Least(30, run.config.refreshInterval) && m.timer.value >= retryAfter
           && (m.timer.value > retryAfter ==> m.timer.value <= run.config.refreshInterval)
  {
    hide Backoff, Initial, After;
    ReachableInv(run.config, run.cached, run.stale, run.credentials, run.events);
    var n := run.State().failureCount + 1;
    BackoffStarts(run.config.refreshInterval);
    BackoffRises(run.config.refreshInterval, 1, n);
  }

  lemma BackoffStarts(refreshInterval: nat)
    ensures Backoff(refreshInterval, 1) == Least(30, refreshInterval)
  {
  }

  /** Every failure doubles the pause, up to 960 seconds and to the refresh interval. */
  lemma BackoffDoubles(refreshInterval: nat, failures: nat)
    requires failures > 0
    ensures failures < 6 ==>
      Backoff(refreshInterval, failures + 1) == Least(2 * Backoff(refreshInterval, failures), refreshInterval)
    ensures failures >= 6 ==> Backoff(refreshInterval, failures) == Least(960, refreshInterval)
  {
    assert PowerOfTwo(5) == 32;
  }

  /** The k-th event of the run was an authentication failure of a request under way. */
  predicate StopsAt(run: Run, k: nat)
    requires k < |run.events|
  {
    run.events[k].Failed? && run.events[k].authentication
    && Enabled(run.(events := run.events[..k]).State(), run.events[k])
  }

  /** The service is stopped exactly when there was an authentication failure and no manual refresh since. */
  ghost predicate StoppedSince(run: Run) {
    exists k :: 0 <= k < |run.events| && StopsAt(run, k)
      && forall j :: k < j < |run.events| ==> run.events[j] != Event.Refresh
  }

  lemma {:induction false} StoppedExactly(run: Run)
    ensures run.State().authenticationStopped <==> StoppedSince(run)
    decreases |run.events|
  {
    hide Enabled, Next, After, StopsAt;
    if run.events == [] {
      NotStoppedAtFirst(run);
    } else {
      var n := |run.events| - 1;
      var front := run.(events := run.events[..n]);
      var e := run.events[n];
      StoppedExactly(front);
      OneMoreEvent(front, e);
      assert run == front.Then(e) by { assert run.events == run.events[..n] + [e]; }
      StopStep(front, e);
      forall k | 0 <= k < n ensures StopsAt(run, k) <==> StopsAt(front, k) {
        SameStop(run, n, k);
      }
      StopsAtEnd(front, e);
      if StoppedSince(front) && e != Event.Refresh {
        var k :| 0 <= k < n && StopsAt(front, k) && forall j :: k < j < n ==> front.events[j] != Event.Refresh;
        assert StopsAt(run, k);
      }
      if StoppedSince(run) {
        var k :| 0 <= k <= n && StopsAt(run, k) && forall j :: k < j <= n ==> run.events[j] != Event.Refresh;
        assert k < n ==> StopsAt(front, k) && e != Event.Refresh;
      }
    }
  }

  lemma NotStoppedAtFirst(run: Run)
    requires run.events == []
    ensures !run.State().authenticationStopped
  {
  }

  lemma SameStop(run: Run, n: nat, k: nat)
    requires k < n <= |run.events|
    ensures StopsAt(run, k) <==> StopsAt(run.(events := run.events[..n]), k)
  {
    hide Enabled, After;
    assert run.events[..n][..k] == run.events[..k];
  }

  lemma StopsAtEnd(front: Run, e: Event)
    ensures StopsAt(front.Then(e), |front.events|) <==> e.Failed? && e.authentication && Enabled(front.State(), e)
  {
    hide Enabled, After;
    assert (front.events + [e])[..|front.events|] == front.events;
    assert front.Then(e).(events := front.events) == front;
  }

  /** What one event does to the stop. */
  lemma StopStep(front: Run, e: Event)
    ensures var m, n := front.State(), front.Then(e).State();
      n.authenticationStopped
      <==> (e.Failed? && e.authentication && Enabled(m, e)) || (m.authenticationStopped && e != Event.Refresh)
  {
    hide After, Initial, Backoff;
    ReachableInv(front.config, front.cached, front.stale, front.credentials, front.events);
    OneMoreEvent(front, e);
  }

  /** How many ordinary failures there have been since the last forecast. */
  function Failures(run: Run): nat
    decreases |run.events|
  {
    if run.events == [] then 0
    else
      var n := |run.events| - 1;
      var front, e := run.(events := run.events[..n]), run.events[n];
      if !Enabled(front.State(), e) then Failures(front)
      else if e.ForecastReady? then 0
      else Failures(front) + if e.Failed? && !e.authentication then 1 else 0
  }

  /** Those and nothing else lengthen the pause: neither a refresh nor a new place shortens it, only a forecast does. */
  lemma {:induction false} FailuresAreCounted(run: Run)
    ensures run.State().failureCount == Failures(run)
    decreases |run.events|
  {
    hide Initial, Next, Enabled, After;
    if run.events == [] {
      NoFailureAtFirst(run);
    } else {
      var n := |run.events| - 1;
      var front := run.(events := run.events[..n]);
      assert run == front.Then(run.events[n]) by { assert run.events == run.events[..n] + [run.events[n]]; }
      FailuresAreCounted(front);
      OneMoreEvent(front, run.events[n]);
      if Enabled(front.State(), run.events[n]) {
        CountStep(front.State(), run.events[n]);
      }
    }
  }

  lemma NoFailureAtFirst(run: Run)
    requires run.events == []
    ensures run.State().failureCount == 0
  {
  }

  lemma CountStep(m: Machine, e: Event)
    requires Enabled(m, e)
    ensures Next(m, e).failureCount ==
      if e.ForecastReady? then 0 else m.failureCount + if e.Failed? && !e.authentication then 1 else 0
  {
    hide Backoff;
  }

  // --- Forecasts and locations -------------------------------------------------------

  /**
   * A forecast is shown as it came, fresh, and the next one is fetched after the refresh interval. Only an air quality
   * that it lacks is taken over, and only from data for the same place.
   */
  lemma ForecastIsShown(run: Run, forecast: Snapshot)
    requires Enabled(run.State(), ForecastReady(forecast))
    ensures var before, m := run.State(), Next(run.State(), ForecastReady(forecast));
      && m.snapshot.location == forecast.location == before.location && m.snapshot.fetched == forecast.fetched
      && (forecast.airQuality.Some? ==> m.snapshot.airQuality == forecast.airQuality)
      && (forecast.airQuality.None? ==>
            m.snapshot.airQuality
            == if before.snapshot.location.key == forecast.location.key then before.snapshot.airQuality else None)
      && m.status == Ready && !m.stale && m.failureCount == 0 && m.pending == []
      && m.timer == Some(run.config.refreshInterval) && !m.authenticationStopped
  {
    hide Backoff, Initial, After;
    ReachableInv(run.config, run.cached, run.stale, run.credentials, run.events);
  }

  /**
   * Air quality is shown as soon as it arrives and changes nothing else; a forecast for the place held that follows
   * without one of its own keeps it.
   */
  lemma AirQualityIsShown(run: Run, airQuality: int, forecast: Snapshot)
    ensures var before, m := run.State(), Next(run.State(), AirQualityReady(airQuality));
      && m.snapshot.airQuality == Some(airQuality)
      && m.snapshot.location == before.snapshot.location && m.snapshot.fetched == before.snapshot.fetched
      && m.(snapshot := before.snapshot) == before
      && (Enabled(m, ForecastReady(forecast)) && forecast.airQuality.None?
          && forecast.location.key == before.snapshot.location.key ==>
            Next(m, ForecastReady(forecast)).snapshot == forecast.(airQuality := Some(airQuality)))
  {
    hide Backoff, Initial, After;
  }

  /** A resolved location is asked for its forecast at once; held data stays exactly when it is for the same place. */
  lemma LocationIsAskedFor(run: Run, location: Location)
    requires Enabled(run.State(), Resolved(location))
    ensures var before, m := run.State(), Next(run.State(), Resolved(location));
      && m.pending == [Weather(location)] && m.status == Loading && m.timer.None?
      && m.snapshot == (if before.snapshot.fetched.Some? && before.snapshot.location.key != location.key
                        then NO_SNAPSHOT else before.snapshot)
      && (m.stale <==> m.snapshot.fetched.Some? || (before.snapshot.fetched.None? && before.stale))
  {
    hide Backoff, Initial, After;
    ReachableInv(run.config, run.cached, run.stale, run.credentials, run.events);
  }

  /** What the service asks first: for the place it is to show, or for its forecast. */
  function FirstRequest(config: Config): Pending {
    match config.mode
    case Automatic => Locate
    case City(city) => Geocode(city)
    case Coordinates(location) => Weather(location)
  }

  /** With credentials the service asks at once, without it says so; held data is shown as stale meanwhile. */
  lemma StartAsksAtOnce(config: Config, cached: Option<Snapshot>, stale: bool)
    ensures Initial(config, cached, stale, true).pending == [FirstRequest(config)]
    ensures Initial(config, cached, stale, false).pending == []
    ensures Initial(config, cached, stale, false).status == Error && !Initial(config, cached, stale, false).started
  {
  }

  /** A request is for the forecast of the resolved place, and before that for the place of the city or the device. */
  ghost predicate AsksRightly(m: Machine) {
    forall p :: p in m.pending ==>
      p == if m.resolved then Weather(m.location) else if m.config.mode.City? then Geocode(m.config.mode.city)
        else Locate
  }

  /** While a request is under way, and after it failed, held data is stale; after a forecast it is fresh. */
  ghost predicate ShowsAge(m: Machine) {
    && (m.inFlight && m.snapshot.fetched.Some? ==> m.stale)
    && (m.started && !m.inFlight ==>
          || (m.status == Error && m.stale == m.snapshot.fetched.Some?)
          || (m.status == Ready && !m.stale && m.snapshot.fetched.Some? && m.failureCount == 0
              && m.timer == Some(m.config.refreshInterval)))
  }

  lemma InitialShows(config: Config, cached: Option<Snapshot>, stale: bool, credentials: bool)
    ensures var m := Initial(config, cached, stale, credentials); AsksRightly(m) && ShowsAge(m)
  {
  }

  lemma StepShows(m: Machine, e: Event)
    requires Inv(m) && AsksRightly(m) && ShowsAge(m) && Enabled(m, e)
    ensures AsksRightly(Next(m, e)) && ShowsAge(Next(m, e))
  {
    hide Backoff;
  }

  /** In every run the service asks for the right thing and shows the age of its data. */
  lemma {:induction false} ReachableShows(run: Run)
    ensures AsksRightly(run.State()) && ShowsAge(run.State())
    decreases |run.events|
  {
    hide Enabled, Next, After, Inv, AsksRightly, ShowsAge, Initial;
    if run.events == [] {
      NothingHappened(run);
      InitialShows(run.config, run.cached, run.stale, run.credentials);
    } else {
      var n := |run.events| - 1;
      var front := run.(events := run.events[..n]);
      assert run == front.Then(run.events[n]) by { assert run.events == run.events[..n] + [run.events[n]]; }
      ReachableInv(front.config, front.cached, front.stale, front.credentials, front.events);
      ReachableShows(front);
      OneMoreEvent(front, run.events[n]);
      if Enabled(front.State(), run.events[n]) {
        StepShows(front.State(), run.events[n]);
      }
    }
  }

  lemma NothingHappened(run: Run)
    requires run.events == []
    ensures run.State() == Initial(run.config, run.cached, run.stale, run.credentials)
  {
  }

  /** Once there is a place no event takes it away, and requests are for forecasts only. */
  lemma ResolvedStays(run: Run, e: Event)
    requires run.State().resolved
    ensures var m := run.Then(e).State(); m.resolved && forall p :: p in m.pending ==> p.Weather?
  {
    hide After, Initial, Backoff, Inv;
    ReachableShows(run.Then(e));
    OneMoreEvent(run, e);
  }

  // --- Configured coordinates ----------------------------------------------------------

  /** With credentials the configured place is the one, and without them nothing happens before a manual refresh. */
  ghost predicate UsesCoordinates(run: Run)
    requires run.config.mode.Coordinates?
  {
    var m := run.State();
    && (run.credentials ==> m.resolved && m.location == run.config.mode.location)
    && (!run.credentials && Event.Refresh !in run.events ==> !m.started && !m.resolved && m.pending == [])
  }

  lemma {:induction false} CoordinatesAreUsed(run: Run)
    requires run.config.mode.Coordinates?
    ensures UsesCoordinates(run)
    decreases |run.events|
  {
    hide After, Backoff, Inv;
    if run.events == [] {
      NothingHappened(run);
    } else {
      var n := |run.events| - 1;
      var front := run.(events := run.events[..n]);
      var e := run.events[n];
      assert run.events == run.events[..n] + [e];
      assert run == front.Then(e);
      CoordinatesAreUsed(front);
      OneMoreEvent(front, e);
      CoordinatesStep(front, e);
    }
  }

  lemma CoordinatesStep(front: Run, e: Event)
    requires front.config.mode.Coordinates? && UsesCoordinates(front)
    ensures UsesCoordinates(front.Then(e))
  {
    hide After, Backoff, Initial;
    ReachableInv(front.config, front.cached, front.stale, front.credentials, front.events);
    ReachableShows(front);
    OneMoreEvent(front, e);
    assert Event.Refresh !in front.Then(e).events ==> Event.Refresh !in front.events && e != Event.Refresh;
  }

  /** At some moment of the run the provider that locates the device is being asked. */
  ghost predicate AsksWhereItIs(run: Run) {
    exists k: nat :: k <= |run.events| && Locate in run.(events := run.events[..k]).State().pending
  }

  /**
   * Although coordinates are configured, the provider that locates the device is asked, exactly when credentials were
   * missing at the start and the user refreshes all the same.
   */
  lemma CoordinatesIgnoredExactly(run: Run)
    requires run.config.mode.Coordinates?
    ensures AsksWhereItIs(run) <==> !run.credentials && Event.Refresh in run.events
  {
    hide After, Backoff, Inv, Initial;
    if AsksWhereItIs(run) {
      var k: nat :| k <= |run.events| && Locate in run.(events := run.events[..k]).State().pending;
      var front := run.(events := run.events[..k]);
      CoordinatesAreUsed(front);
      ReachableShows(front);
      assert Event.Refresh in front.events ==> Event.Refresh in run.events;
    }
    if !run.credentials && Event.Refresh in run.events {
      var k := FirstRefresh(run.events);
      var front := run.(events := run.events[..k]);
      CoordinatesAreUsed(front);
      OneMoreEvent(front, Event.Refresh);
      assert run.events[..k + 1] == run.events[..k] + [Event.Refresh];
      RefreshAsksWhereItIs(front);
      assert run.(events := run.events[..k + 1]) == front.Then(Event.Refresh);
      assert Locate in run.(events := run.events[..k + 1]).State().pending;
    }
  }

  lemma RefreshAsksWhereItIs(front: Run)
    requires front.config.mode.Coordinates? && !front.State().started && !front.State().resolved
    ensures Locate in front.Then(Event.Refresh).State().pending
  {
    hide After, Backoff, Initial;
    ReachableInv(front.config, front.cached, front.stale, front.credentials, front.events);
    OneMoreEvent(front, Event.Refresh);
  }

  lemma {:induction false} FirstRefresh(events: seq<Event>) returns (k: nat)
    requires Event.Refresh in events
    ensures k < |events| && events[k] == Event.Refresh && Event.Refresh !in events[..k]
  {
    if events[0] == Event.Refresh {
      k := 0;
    } else {
      var rest := FirstRefresh(events[1..]);
      k := rest + 1;
      assert events[..k] == [events[0]] + events[1..][..rest];
    }
  }
}
