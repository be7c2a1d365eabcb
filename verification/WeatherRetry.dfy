/**
 * The asynchronous weather service (src/weather/weather_service.cpp) as a machine of requests, replies and one timer.
 */
module WeatherRetry {
  import opened Wrappers

  /** `key` is the rounded position that decides whether two locations are the same. */
  datatype Location = Location(city: string, country: string, key: string)

  datatype LocationMode = Automatic | City(city: string) | Coordinates(location: Location)

  datatype Config = Config(refreshInterval: nat, mode: LocationMode)

  /** Held data; without a time of fetching there is no forecast in it. */
  datatype Snapshot = Snapshot(location: Location, fetched: Option<int>, airQuality: Option<int>)

  const NO_SNAPSHOT := Snapshot(Location("", "", "0.0000,0.0000"), None, None)

  datatype Operation = NoOperation | ResolveLocation | RequestForecast

  datatype Status = Unconfigured | Locating | Loading | Ready | Error

  /** A request some provider has not answered yet. */
  datatype Pending = Geocode(city: string) | Locate | Weather(location: Location)

  /**
   * A failed attempt since the last forecast: how long the timer was set, in seconds, and what the server asked for.
   */
  datatype Attempt = Attempt(delay: int, retryAfter: int)

  datatype Machine = Machine(
    config: Config,
    status: Status,
    inFlight: bool,
    operation: Operation,
    resolved: bool,
    location: Location,
    snapshot: Snapshot,
    stale: bool,
    authenticationStopped: bool,
    failureCount: nat,
    timer: Option<int>, // seconds, while armed
    pending: seq<Pending>, // history: requests without a reply
    attempts: seq<Attempt>, // history: failures since the last forecast
    started: bool) // history: an operation has been started

  datatype Event =
    | TimerFired
    | Refresh
    | Resolved(location: Location)
    | ForecastReady(forecast: Snapshot)
    | Failed(authentication: bool, retryAfter: int)
    | AirQualityReady(airQuality: int)

  // --- Transitions ----------------------------------------------------------

  function StartOperation(m: Machine, manual: bool): Machine {
    if m.inFlight || (!manual && m.authenticationStopped) then m
    else
      var ready := if manual then m.(authenticationStopped := false, timer := None) else m;
      ready.(
        inFlight := true,
        operation := if m.resolved then RequestForecast else ResolveLocation,
        status := if m.resolved then Loading else Locating,
        stale := m.snapshot.fetched.Some? || m.stale,
        pending := m.pending + [RequestOf(m)],
        started := true)
  }

  function RequestOf(m: Machine): Pending {
    if m.resolved then Weather(m.location)
    else if m.config.mode.City? then Geocode(m.config.mode.city)
    else Locate
  }

  function AfterLocation(m: Machine, location: Location): Machine {
    var idle := m.(inFlight := false, operation := NoOperation, location := location, resolved := true);
    var matched :=
      if idle.snapshot.fetched.Some? && idle.snapshot.location.key != location.key
      then idle.(snapshot := NO_SNAPSHOT, stale := false) else idle;
    StartOperation(matched, false)
  }

  function AfterForecast(m: Machine, forecast: Snapshot): Machine {
    var keep := forecast.airQuality.None? && m.snapshot.location.key == forecast.location.key;
    m.(snapshot := if keep then forecast.(airQuality := m.snapshot.airQuality) else forecast,
       inFlight := false, operation := NoOperation, stale := false, failureCount := 0, status := Ready,
       timer := Some(m.config.refreshInterval), attempts := [])
  }

  function PowerOfTwo(k: nat): nat {
    if k == 0 then 1 else 2 * PowerOfTwo(k - 1)
  }

  /** Seconds until the next attempt after so many failures in a row. */
  function Backoff(refreshInterval: nat, failures: nat): nat
    requires failures > 0
  {
    var doubled := 30 * PowerOfTwo(if failures - 1 < 5 then failures - 1 else 5);
    if doubled < refreshInterval then doubled else refreshInterval
  }

  function AfterFailure(m: Machine, authentication: bool, retryAfter: int): Machine {
    var failed := m.(inFlight := false, operation := NoOperation, stale := m.snapshot.fetched.Some?, status := Error,
                     authenticationStopped := authentication);
    if authentication then failed
    else
      var backoff := Backoff(m.config.refreshInterval, m.failureCount + 1);
      var delay := if backoff < retryAfter then retryAfter else backoff;
      failed.(failureCount := m.failureCount + 1, timer := Some(delay),
              attempts := m.attempts + [Attempt(delay, retryAfter)])
  }

  /** A provider replies to what it was asked, once; the forecast is for the place it was asked about. */
  predicate Enabled(m: Machine, e: Event) {
    match e
    case TimerFired => m.timer.Some?
    case Refresh => true
    case Resolved(_) => m.pending != [] && !m.pending[0].Weather?
    case ForecastReady(forecast) =>
      m.pending != [] && m.pending[0] == Weather(forecast.location) && forecast.fetched.Some?
    case Failed(_, _) => m.pending != []
    case AirQualityReady(_) => true
  }

  function Next(m: Machine, e: Event): Machine
    requires Enabled(m, e)
  {
    match e
    case TimerFired => StartOperation(m.(timer := None), false)
    case Refresh => StartOperation(m, true)
    case Resolved(location) => AfterLocation(m.(pending := m.pending[1..]), location)
    case ForecastReady(forecast) => AfterForecast(m.(pending := m.pending[1..]), forecast)
    case Failed(authentication, retryAfter) => AfterFailure(m.(pending := m.pending[1..]), authentication, retryAfter)
    case AirQualityReady(airQuality) =>
      m.(snapshot := m.snapshot.(airQuality := Some(airQuality)))
  }

  /** After the constructor: a cached forecast may be there; with missing credentials nothing starts. */
  function Initial(config: Config, cached: Option<Snapshot>, stale: bool, credentials: bool): Machine {
    var m := Machine(config, if cached.Some? then Ready else Unconfigured, false, NoOperation, false,
                     Location("", "", "0.0000,0.0000"), cached.GetOr(NO_SNAPSHOT), stale, false, 0, None,
                     [], [], false);
    if !credentials then m.(status := Error)
    else if config.mode.Coordinates? then AfterLocation(m, config.mode.location)
    else StartOperation(m, false)
  }

  /** The machine after a run; an event that cannot happen when its turn comes does not. */
  function After(start: Machine, events: seq<Event>): Machine {
    if events == [] then start
    else
      var m, e := After(start, events[..|events| - 1]), events[|events| - 1];
      if Enabled(m, e) then Next(m, e) else m
  }

  // --- The invariant --------------------------------------------------------

  ghost predicate Inv(m: Machine) {
    && (m.inFlight <==> m.operation != NoOperation)
    && |m.pending| == (if m.inFlight then 1 else 0)
    && (m.inFlight ==> m.started && m.timer.None? && !m.authenticationStopped)
    && (m.inFlight ==> Running(m))
    && (m.timer.Some? ==> m.started && !m.authenticationStopped)
    && (m.started && !m.inFlight ==> m.timer.Some? || m.authenticationStopped)
    && (m.resolved && m.snapshot.fetched.Some? ==> m.snapshot.location.key == m.location.key)
    && |m.attempts| == m.failureCount
    && (forall i :: 0 <= i < |m.attempts| ==> DelayOk(m, i))
  }

  /** The one request is for the operation under way, and the status shows it. */
  ghost predicate Running(m: Machine)
    requires |m.pending| == 1
  {
    if m.resolved then m.operation == RequestForecast && m.status == Loading && m.pending[0] == Weather(m.location)
    else m.operation == ResolveLocation && m.status == Locating && !m.pending[0].Weather?
  }

  ghost predicate DelayOk(m: Machine, i: nat)
    requires i < |m.attempts|
  {
    var backoff, a := Backoff(m.config.refreshInterval, i + 1), m.attempts[i];
    a.delay == if backoff < a.retryAfter then a.retryAfter else backoff
  }

  lemma InitialInv(config: Config, cached: Option<Snapshot>, stale: bool, credentials: bool)
    ensures Inv(Initial(config, cached, stale, credentials))
  {
  }

  lemma FailKeeps(m: Machine, authentication: bool, retryAfter: int)
    requires Inv(m) && m.pending != []
    ensures Inv(AfterFailure(m.(pending := m.pending[1..]), authentication, retryAfter))
  {
    hide Backoff;
    var m' := AfterFailure(m.(pending := m.pending[1..]), authentication, retryAfter);
    forall i | 0 <= i < |m'.attempts| ensures DelayOk(m', i) {
      assert i < |m.attempts| ==> DelayOk(m, i);
    }
  }

  lemma OtherStepKeeps(m: Machine, e: Event)
    requires Inv(m) && Enabled(m, e) && !e.Failed?
    ensures Inv(Next(m, e))
  {
    hide Backoff, AfterFailure;
    var m' := Next(m, e);
    forall i | 0 <= i < |m'.attempts| ensures DelayOk(m', i) {
      assert DelayOk(m, i);
    }
  }

  lemma StepKeeps(m: Machine, e: Event)
    requires Inv(m) && Enabled(m, e)
    ensures Inv(Next(m, e)) && Next(m, e).config == m.config
  {
    hide Inv;
    if e.Failed? {
      FailKeeps(m, e.authentication, e.retryAfter);
    } else {
      OtherStepKeeps(m, e);
    }
  }

  lemma {:induction false} ReachableInv(config: Config, cached: Option<Snapshot>, stale: bool, credentials: bool,
                                        events: seq<Event>)
    ensures var m := After(Initial(config, cached, stale, credentials), events); Inv(m) && m.config == config
  {
    hide Inv, Next, Enabled, Initial;
    var start := Initial(config, cached, stale, credentials);
    if events == [] {
      InitialInv(config, cached, stale, credentials);
      assert start.config == config by { InitialConfig(config, cached, stale, credentials); }
    } else {
      var front := events[..|events| - 1];
      ReachableInv(config, cached, stale, credentials, front);
      if Enabled(After(start, front), events[|events| - 1]) {
        StepKeeps(After(start, front), events[|events| - 1]);
      }
    }
  }

  lemma InitialConfig(config: Config, cached: Option<Snapshot>, stale: bool, credentials: bool)
    ensures Initial(config, cached, stale, credentials).config == config
  {
  }

  /** The service never gets stuck: once started it waits for a reply, for its timer, or for new credentials. */
  lemma NeverStuck(config: Config, cached: Option<Snapshot>, stale: bool, credentials: bool, events: seq<Event>)
    ensures var m := After(Initial(config, cached, stale, credentials), events);
      && (m.started ==> m.pending != [] || m.timer.Some? || m.authenticationStopped)
      && (m.pending != [] ==> Enabled(m, Failed(false, 0)))
      && (m.timer.Some? ==> Enabled(m, TimerFired) && Next(m, TimerFired).pending != [])
  {
    ReachableInv(config, cached, stale, credentials, events);
  }

  /** F5 always leads to a request under way, also after an authentication failure. */
  lemma ManualRefreshAlwaysWorks(config: Config, cached: Option<Snapshot>, stale: bool, credentials: bool,
                                 events: seq<Event>)
    ensures var m := Next(After(Initial(config, cached, stale, credentials), events), Refresh);
      m.inFlight && |m.pending| == 1 && m.timer.None? && !m.authenticationStopped
  {
    ReachableInv(config, cached, stale, credentials, events);
    StepKeeps(After(Initial(config, cached, stale, credentials), events), Refresh);
  }

  // --- Retry delays ---------------------------------------------------------

  lemma {:induction false} PowersRise(j: nat, k: nat)
    requires j <= k
    ensures 1 <= PowerOfTwo(j) <= PowerOfTwo(k)
  {
    if j < k {
      PowersRise(j, k - 1);
    } else if j > 0 {
      PowersRise(j - 1, j - 1);
    }
  }

  lemma BackoffRises(refreshInterval: nat, j: nat, k: nat)
    requires 0 < j <= k
    ensures Backoff(refreshInterval, j) <= Backoff(refreshInterval, k) <= refreshInterval
    ensures Backoff(refreshInterval, k) <= 960
  {
    PowersRise(if j - 1 < 5 then j - 1 else 5, if k - 1 < 5 then k - 1 else 5);
    PowersRise(if k - 1 < 5 then k - 1 else 5, 5);
    assert PowerOfTwo(5) == 32;
  }

  /**
   * Between two forecasts the delays never shrink and never exceed the refresh interval, where the server asked for
   * nothing longer; and no retry comes earlier than the server asked.
   */
  lemma DelaysNeverShrink(config: Config, cached: Option<Snapshot>, stale: bool, credentials: bool, events: seq<Event>,
                          i: nat, j: nat)
    requires i <= j < |After(Initial(config, cached, stale, credentials), events).attempts|
    ensures var attempts := After(Initial(config, cached, stale, credentials), events).attempts;
      && attempts[i].delay >= attempts[i].retryAfter
      && (attempts[i].retryAfter <= 0 ==> attempts[i].delay <= attempts[j].delay)
      && (attempts[i].retryAfter <= 0 ==> attempts[i].delay <= config.refreshInterval)
  {
    hide Backoff, Initial, After;
    var m := After(Initial(config, cached, stale, credentials), events);
    ReachableInv(config, cached, stale, credentials, events);
    BackoffRises(config.refreshInterval, i + 1, j + 1);
    assert DelayOk(m, i) && DelayOk(m, j);
    BackoffRises(config.refreshInterval, i + 1, i + 1);
  }

  // --- The object -----------------------------------------------------------

  class WeatherService {
    const config: Config
    var status: Status
    var inFlight: bool
    var operation: Operation
    var locationResolved: bool
    var location: Location
    var snapshot: Snapshot
    var stale: bool
    var authenticationStopped: bool
    var failureCount: nat
    var refreshTimer: Option<int>
    ghost var pending: seq<Pending>
    ghost var attempts: seq<Attempt>
    ghost var started: bool

    ghost function State(): Machine
      reads this
    {
      Machine(config, status, inFlight, operation, locationResolved, location, snapshot, stale, authenticationStopped,
              failureCount, refreshTimer, pending, attempts, started)
    }

    /** Between events the object is in a state the theorems above speak of. */
    ghost predicate Valid()
      reads this
    {
      Inv(State())
    }

    constructor (config: Config, cached: Option<Snapshot>, cachedStale: bool, credentials: bool)
      ensures Valid() && State() == Initial(config, cached, cachedStale, credentials)
    {
      hide Inv;
      InitialInv(config, cached, cachedStale, credentials);
      this.config := config;
      status := if cached.Some? then Ready else Unconfigured;
      inFlight, operation, locationResolved := false, NoOperation, false;
      location := Location("", "", "0.0000,0.0000");
      snapshot, stale := cached.GetOr(NO_SNAPSHOT), cachedStale;
      authenticationStopped, failureCount, refreshTimer := false, 0, None;
      pending, attempts, started := [], [], false;
      new;
      if !credentials {
        status := Error;
        return;
      }
      if config.mode.Coordinates? {
        SetLocation(config.mode.location);
      } else {
        Start(false);
      }
    }

    // --- Events: each is one step of the machine ----------------------------

    method Refresh()
      requires Valid()
      modifies this
      ensures Valid() && State() == Next(old(State()), Event.Refresh)
    {
      hide Inv, StartOperation;
      StepKeeps(State(), Event.Refresh);
      Start(true);
    }

    /** The timer is a single shot: by the time it calls back it is no longer armed. */
    method TimerFired()
      requires Valid() && refreshTimer.Some?
      modifies this
      ensures Valid() && State() == Next(old(State()), Event.TimerFired)
    {
      hide Inv, StartOperation;
      StepKeeps(State(), Event.TimerFired);
      refreshTimer := None;
      Start(false);
    }

    /** A geocoding or location provider found the place. */
    method OnResolved(location: Location)
      requires Valid() && Enabled(State(), Resolved(location))
      modifies this
      ensures Valid() && State() == Next(old(State()), Resolved(location))
    {
      hide Inv, AfterLocation;
      StepKeeps(State(), Resolved(location));
      pending := pending[1..];
      SetLocation(location);
    }

    method OnForecastReady(forecast: Snapshot)
      requires Valid() && Enabled(State(), ForecastReady(forecast))
      modifies this
      ensures Valid() && State() == Next(old(State()), ForecastReady(forecast))
    {
      hide Inv, AfterForecast;
      StepKeeps(State(), ForecastReady(forecast));
      pending := pending[1..];
      Publish(forecast);
    }

    /** Any provider's failure. */
    method OnFailed(authenticationFailure: bool, retryAfter: int)
      requires Valid() && Enabled(State(), Failed(authenticationFailure, retryAfter))
      modifies this
      ensures Valid() && State() == Next(old(State()), Failed(authenticationFailure, retryAfter))
    {
      hide Inv, AfterFailure;
      StepKeeps(State(), Failed(authenticationFailure, retryAfter));
      pending := pending[1..];
      Fail(authenticationFailure, retryAfter);
    }

    method OnAirQualityReady(airQuality: int)
      requires Valid()
      modifies this
      ensures Valid() && State() == Next(old(State()), AirQualityReady(airQuality))
    {
      hide Inv;
      StepKeeps(State(), AirQualityReady(airQuality));
      snapshot := snapshot.(airQuality := Some(airQuality));
    }

    // --- What the events call -----------------------------------------------

    method SetLocation(location: Location)
      modifies this
      ensures State() == AfterLocation(old(State()), location)
    {
      hide Backoff, StartOperation;
      inFlight := false;
      operation := NoOperation;
      this.location := location;
      locationResolved := true;
      if snapshot.fetched.Some? && snapshot.location.key != location.key {
        snapshot := NO_SNAPSHOT;
        stale := false;
      }
      Start(false);
    }

    method Start(manual: bool)
      modifies this
      ensures State() == StartOperation(old(State()), manual)
    {
      hide Backoff, RequestOf;
      if inFlight {
        return;
      }
      if !manual && authenticationStopped {
        return;
      }
      if manual {
        authenticationStopped := false;
        refreshTimer := None;
      }
      ghost var request := RequestOf(old(State()));
      inFlight := true;
      operation := if locationResolved then RequestForecast else ResolveLocation;
      status := if locationResolved then Loading else Locating;
      if snapshot.fetched.Some? {
        stale := true;
      }
      pending := pending + [request];
      started := true;
    }

    method Publish(forecast: Snapshot)
      modifies this
      ensures State() == AfterForecast(old(State()), forecast)
    {
      hide Backoff;
      var received := forecast;
      if received.airQuality == None && snapshot.location.key == received.location.key {
        received := received.(airQuality := snapshot.airQuality);
      }
      snapshot := received;
      inFlight := false;
      operation := NoOperation;
      stale := false;
      failureCount := 0;
      status := Ready;
      refreshTimer := Some(config.refreshInterval);
      attempts := [];
    }

    method Fail(authenticationFailure: bool, retryAfter: int)
      modifies this
      ensures State() == AfterFailure(old(State()), authenticationFailure, retryAfter)
    {
      hide Backoff;
      inFlight := false;
      operation := NoOperation;
      stale := snapshot.fetched.Some?;
      status := Error;
      authenticationStopped := authenticationFailure;
      if !authenticationFailure {
        ScheduleRetry(retryAfter);
      }
    }

    method ScheduleRetry(retryAfter: int)
      modifies `failureCount, `refreshTimer, `attempts
      ensures failureCount == old(failureCount) + 1
      ensures var backoff := Backoff(config.refreshInterval, failureCount);
        var delay := if backoff < retryAfter then retryAfter else backoff;
        refreshTimer == Some(delay) && attempts == old(attempts) + [Attempt(delay, retryAfter)]
    {
      hide Backoff;
      failureCount := failureCount + 1;
      var backoff := Backoff(config.refreshInterval, failureCount);
      var delay := if backoff < retryAfter then retryAfter else backoff;
      refreshTimer := Some(delay);
      attempts := attempts + [Attempt(delay, retryAfter)];
    }
  }
}
