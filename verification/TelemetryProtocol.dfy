/**
 * The daemons, a network that loses, duplicates and reorders, and the registry, as one state machine.
 * A daemon's run (daemon/src/daemon.cpp, `run`) is named by its instance id; a datagram once sent may be delivered
 * any number of times, in any order, or never.
 */
module TelemetryProtocol {
  import opened Wrappers
  import opened CborFormat
  import opened TelemetryTypes
  import opened DeviceRegistry

  /** One run of the daemon: its identity and configuration are fixed, `sequence` numbers the next snapshot. */
  datatype Daemon = Daemon(
    deviceId: Uuid, displayName: string, interval: int32, info: SystemInfo, sequence: nat, endpoint: Endpoint,
    greeted: bool)

  datatype Packet = Packet(message: Message, from: Endpoint)

  /**
   * The rest is history. `log` and `epoch`: the snapshots applied since a device's current epoch began, and its number.
   * `applied` and `begun`: every snapshot ever applied, and the instance of every hello that began an epoch, in order.
   */
  datatype World = World(
    daemons: map<Uuid, Daemon>, sent: set<Packet>, devices: seq<Device>,
    log: map<Uuid, seq<Message>>, epoch: map<Uuid, nat>,
    applied: seq<Packet>, begun: seq<Uuid>)

  datatype Event =
    | Start(instance: Uuid, daemon: Daemon)
    | SayHello(instance: Uuid, from: Endpoint)
    | Report(instance: Uuid, metrics: Option<SystemMetrics>)
    | Deliver(packet: Packet, now: nat)
    | Age(now: nat)
    | Forget(id: Uuid)
    | Restart

  // --- The daemon -----------------------------------------------------------

  function HelloOf(instance: Uuid, d: Daemon): Message {
    Hello(d.deviceId, instance, d.displayName, d.interval, d.info)
  }

  function SnapshotOf(instance: Uuid, d: Daemon, metrics: Option<SystemMetrics>): Message
    requires d.sequence < TWO_TO_THE_64
  {
    DeviceSnapshot(d.deviceId, instance, d.interval, d.sequence, d.info, metrics)
  }

  // --- Steps ----------------------------------------------------------------

  ghost predicate Enabled(w: World, e: Event) {
    match e
    case Start(instance, d) => instance !in w.daemons && d.sequence == 0 && !d.greeted
    case SayHello(instance, _) => instance in w.daemons
    // One snapshot per pass of the loop, from the socket that said hello, and at most 2^64 of them in a run.
    case Report(instance, _) =>
      instance in w.daemons && w.daemons[instance].greeted && w.daemons[instance].sequence < TWO_TO_THE_64
    case Deliver(packet, _) => packet in w.sent
    case Age(_) => true
    case Forget(_) => true
    case Restart => true
  }

  type Logs = map<Uuid, seq<Message>>

  type Epochs = map<Uuid, nat>

  function LogOf(log: Logs, id: Uuid): seq<Message> {
    if id in log then log[id] else []
  }

  function EpochOf(epoch: Epochs, id: Uuid): nat {
    if id in epoch then epoch[id] else 0
  }

  function NextEpoch(w: World, id: Uuid): World {
    w.(log := w.log[id := []], epoch := w.epoch[id := EpochOf(w.epoch, id) + 1])
  }

  /** An accepted hello begins an epoch unless the device already runs under that instance. */
  predicate Begins(devices: seq<Device>, hello: Message, from: Endpoint, now: nat)
    requires hello.Hello?
  {
    var i := Find(devices, hello.deviceId);
    AfterHello(devices, hello, from, now).reason == ""
    && (i == |devices| || devices[i].instanceId != hello.instanceId)
  }

  ghost function Next(w: World, e: Event): World
    requires Enabled(w, e)
  {
    match e
    case Start(instance, d) => w.(daemons := w.daemons[instance := d])
    case SayHello(instance, from) =>
      var d := w.daemons[instance].(endpoint := from, greeted := true);
      w.(daemons := w.daemons[instance := d], sent := w.sent + {Packet(HelloOf(instance, d), from)})
    case Report(instance, metrics) =>
      var d := w.daemons[instance];
      w.(daemons := w.daemons[instance := d.(sequence := d.sequence + 1, greeted := false)],
         sent := w.sent + {Packet(SnapshotOf(instance, d, metrics), d.endpoint)})
    case Deliver(packet, now) => Delivered(w, packet.message, packet.from, now)
    case Age(now) => w.(devices := Refreshed(w.devices, now))
    case Forget(id) => NextEpoch(w.(devices := Forgotten(w.devices, id)), id)
    case Restart =>
      w.(devices := Restored(w.devices), log := map[], epoch := map id | id in w.epoch :: w.epoch[id] + 1)
  }

  /** What decodeMessage refuses changes nothing; the rest goes to the registry. */
  ghost function Delivered(w: World, m: Message, from: Endpoint, now: nat): World {
    if m.RegistrationResult? || !MessageOk(m) then w
    else if m.Hello? then
      var next := w.(devices := AfterHello(w.devices, m, from, now).devices);
      if Begins(w.devices, m, from, now) then NextEpoch(next.(begun := w.begun + [m.instanceId]), m.deviceId) else next
    else
      var next := w.(devices := AfterSnapshot(w.devices, m, from, now));
      if Accepts(w.devices, m, from)
      then next.(log := w.log[m.deviceId := LogOf(w.log, m.deviceId) + [m]], applied := w.applied + [Packet(m, from)])
      else next
  }

  const START := World(map[], {}, [], map[], map[], [], [])

  /** The world after a run; an event that cannot happen when its turn comes does not. */
  ghost function After(events: seq<Event>): World {
    if events == [] then START
    else
      var w, e := After(events[..|events| - 1]), events[|events| - 1];
      if Enabled(w, e) then Next(w, e) else w
  }

  // --- The invariant --------------------------------------------------------

  ghost predicate SentOk(daemons: map<Uuid, Daemon>, sent: set<Packet>) {
    forall p :: p in sent ==>
      && !p.message.RegistrationResult?
      && p.message.instanceId in daemons
      && p.message.deviceId == daemons[p.message.instanceId].deviceId
      && p.message.interval == daemons[p.message.instanceId].interval
      && (p.message.DeviceSnapshot? ==> p.message.sequence < daemons[p.message.instanceId].sequence)
  }

  predicate SameNumber(a: Message, b: Message) {
    a.DeviceSnapshot? && b.DeviceSnapshot? && a.instanceId == b.instanceId && a.sequence == b.sequence
  }

  /** An instance and a sequence number name one snapshot. */
  ghost predicate SentOnce(sent: set<Packet>) {
    forall p, q :: p in sent && q in sent && SameNumber(p.message, q.message) ==> p == q
  }

  ghost predicate WasSent(sent: set<Packet>, m: Message) {
    exists from :: Packet(m, from) in sent
  }

  /** Strictly increasing snapshots of one instance, every one of which was sent by it. */
  ghost predicate Ordered(sent: set<Packet>, id: Uuid, log: seq<Message>) {
    && (forall k :: 0 <= k < |log| ==> log[k].DeviceSnapshot? && log[k].deviceId == id && WasSent(sent, log[k]))
    && (forall j, k :: 0 <= j < k < |log| ==>
          log[j].instanceId == log[k].instanceId && log[j].sequence < log[k].sequence)
  }

  ghost predicate LogsOk(sent: set<Packet>, log: Logs, epoch: Epochs) {
    forall id :: Ordered(sent, id, LogOf(log, id)) && (LogOf(log, id) != [] ==> id in epoch)
  }

  /** What the registry shows is the last applied snapshot of the epoch. */
  ghost predicate Shows(log: Logs, epoch: Epochs, d: Device) {
    d.deviceId in epoch && ShowsLast(LogOf(log, d.deviceId), d)
  }

  ghost predicate ShowsLast(log: seq<Message>, d: Device) {
    if log == [] then d.lastSequence == None && d.metrics == None
    else
      var last := log[|log| - 1];
      last.DeviceSnapshot? && d.instanceId == last.instanceId && d.lastSequence == Some(last.sequence)
      && d.metrics == last.metrics
  }

  ghost predicate AllShown(log: Logs, epoch: Epochs, devices: seq<Device>) {
    forall i :: 0 <= i < |devices| ==> Shows(log, epoch, devices[i])
  }

  ghost predicate Inv(w: World) {
    && RegistryOk(w.devices)
    && SentOk(w.daemons, w.sent)
    && SentOnce(w.sent)
    && LogsOk(w.sent, w.log, w.epoch)
    && AllShown(w.log, w.epoch, w.devices)
  }

  // --- Every step keeps it --------------------------------------------------

  lemma MoreSentKeepsLogs(sent: set<Packet>, more: set<Packet>, log: Logs, epoch: Epochs)
    requires LogsOk(sent, log, epoch) && sent <= more
    ensures LogsOk(more, log, epoch)
  {
    forall id ensures Ordered(more, id, LogOf(log, id)) {
      assert Ordered(sent, id, LogOf(log, id));
    }
  }

  lemma DaemonStepKeeps(w: World, e: Event)
    requires Inv(w) && Enabled(w, e) && (e.Start? || e.SayHello? || e.Report?)
    ensures Inv(Next(w, e))
  {
    hide RegistryOk, LogsOk, AllShown;
    MoreSentKeepsLogs(w.sent, Next(w, e).sent, w.log, w.epoch);
  }

  lemma AgeKeeps(w: World, now: nat)
    requires Inv(w)
    ensures Inv(w.(devices := Refreshed(w.devices, now)))
  {
    hide RegistryOk, SentOk, SentOnce, LogsOk;
    RefreshKeeps(w.devices, now);
    RefreshShows(w.log, w.epoch, w.devices, now);
  }

  lemma RefreshShows(log: Logs, epoch: Epochs, devices: seq<Device>, now: int)
    requires AllShown(log, epoch, devices)
    ensures AllShown(log, epoch, Refreshed(devices, now))
  {
    var r := Refreshed(devices, now);
    forall i | 0 <= i < |r| ensures Shows(log, epoch, r[i]) {
      assert r[i] == Fresh(devices[i], now) && Shows(log, epoch, devices[i]);
    }
  }

  lemma EmptiedLogsOk(sent: set<Packet>, log: Logs, epoch: Epochs, id: Uuid)
    requires LogsOk(sent, log, epoch)
    ensures LogsOk(sent, log[id := []], epoch[id := EpochOf(epoch, id) + 1])
  {
    var log' := log[id := []];
    forall k ensures Ordered(sent, k, LogOf(log', k)) {
      assert k != id ==> Ordered(sent, k, LogOf(log, k));
    }
  }

  /** The device has nothing left of an earlier epoch. */
  predicate Blank(d: Device) {
    d.lastSequence == None && d.metrics == None
  }

  lemma EmptiedStillShows(log: Logs, epoch: Epochs, id: Uuid, d: Device)
    requires if d.deviceId == id then Blank(d) else Shows(log, epoch, d)
    ensures Shows(log[id := []], epoch[id := EpochOf(epoch, id) + 1], d)
  {
  }

  lemma ForgetStepKeeps(w: World, id: Uuid)
    requires Inv(w)
    ensures Inv(NextEpoch(w.(devices := Forgotten(w.devices, id)), id))
  {
    hide RegistryOk, Forgotten, Shows, LogsOk, SentOk, SentOnce;
    var devices := Forgotten(w.devices, id);
    ForgetKeeps(w.devices, id);
    EmptiedLogsOk(w.sent, w.log, w.epoch, id);
    forall i | 0 <= i < |devices|
      ensures Shows(w.log[id := []], w.epoch[id := EpochOf(w.epoch, id) + 1], devices[i])
    {
      assert devices[i] in devices;
      var k :| 0 <= k < |w.devices| && w.devices[k] == devices[i];
      EmptiedStillShows(w.log, w.epoch, id, devices[i]);
    }
  }

  lemma RestartKeeps(w: World)
    requires Inv(w)
    ensures Inv(Next(w, Restart))
  {
    hide RegistryOk, SentOk, SentOnce;
    RestoredOk(w.devices);
    var epoch := Next(w, Restart).epoch;
    forall i | 0 <= i < |w.devices| ensures Shows(map[], epoch, Restored(w.devices)[i]) {
      assert Shows(w.log, w.epoch, w.devices[i]);
    }
  }

  lemma HelloDeliveryKeeps(w: World, m: Message, from: Endpoint, now: nat)
    requires Inv(w) && m.Hello? && MessageOk(m)
    ensures Inv(Delivered(w, m, from, now))
  {
    hide RegistryOk, SentOk, SentOnce, MessageOk, LogsOk, AfterHello, AllShown;
    HelloKeeps(w.devices, m, from, now);
    EmptiedLogsOk(w.sent, w.log, w.epoch, m.deviceId);
    HelloShows(w, m, from, now);
  }

  lemma HelloShows(w: World, m: Message, from: Endpoint, now: nat)
    requires RegistryOk(w.devices) && AllShown(w.log, w.epoch, w.devices) && m.Hello? && MessageOk(m)
    ensures var w' := Delivered(w, m, from, now); AllShown(w'.log, w'.epoch, w'.devices)
  {
    hide RegistryOk, MessageOk, Shows, Fresh, AfterHello, Begins;
    var r := AfterHello(w.devices, m, from, now).devices;
    RefreshShows(w.log, w.epoch, w.devices, now);
    if Begins(w.devices, m, from, now) {
      forall i | 0 <= i < |r|
        ensures Shows(w.log[m.deviceId := []], w.epoch[m.deviceId := EpochOf(w.epoch, m.deviceId) + 1], r[i])
      {
        BeginningDevice(w.devices, m, from, now, i);
        EmptiedStillShows(w.log, w.epoch, m.deviceId, r[i]);
      }
    } else {
      forall i | 0 <= i < |r| ensures Shows(w.log, w.epoch, r[i]) {
        ContinuingDevice(w.devices, m, from, now, i);
        if r[i] != Refreshed(w.devices, now)[i] {
          SameInstanceShows(w.log, w.epoch, Refreshed(w.devices, now)[i], m, from);
        }
      }
    }
  }

  /** At the beginning of an epoch the greeted device is blank and the others are as they were. */
  lemma BeginningDevice(devices: seq<Device>, m: Message, from: Endpoint, now: nat, i: nat)
    requires RegistryOk(devices) && m.Hello? && Begins(devices, m, from, now)
    requires i < |AfterHello(devices, m, from, now).devices|
    ensures var d := AfterHello(devices, m, from, now).devices[i];
      if d.deviceId == m.deviceId then Blank(d) else i < |devices| && d == Refreshed(devices, now)[i]
  {
    hide RegistryOk, Fresh;
    FindRefreshed(devices, now, m.deviceId);
    OnlyOne(devices, Find(devices, m.deviceId), m.deviceId);
  }

  /** Otherwise at most the device of this very instance is touched. */
  lemma ContinuingDevice(devices: seq<Device>, m: Message, from: Endpoint, now: nat, i: nat)
    requires RegistryOk(devices) && m.Hello? && !Begins(devices, m, from, now)
    requires i < |AfterHello(devices, m, from, now).devices|
    ensures i < |devices|
    ensures var d, before := AfterHello(devices, m, from, now).devices[i], Refreshed(devices, now)[i];
      d == before || (before.instanceId == m.instanceId && d == Greeted(before, m, from))
  {
    hide RegistryOk, Fresh;
    FindRefreshed(devices, now, m.deviceId);
  }

  /** A hello of the running instance leaves sequence and metrics alone. */
  lemma SameInstanceShows(log: Logs, epoch: Epochs, d: Device, hello: Message, from: Endpoint)
    requires hello.Hello? && Shows(log, epoch, d) && d.instanceId == hello.instanceId
    ensures Shows(log, epoch, Greeted(d, hello, from))
  {
  }

  lemma OnlyOne(devices: seq<Device>, at: nat, id: Uuid)
    requires RegistryOk(devices)
    requires at < |devices| ==> devices[at].deviceId == id
    requires at >= |devices| ==> forall k :: 0 <= k < |devices| ==> devices[k].deviceId != id
    ensures forall i :: 0 <= i < |devices| && devices[i].deviceId == id ==> i == at
  {
    hide DeviceOk;
  }

  lemma SnapshotDeliveryKeeps(w: World, m: Message, from: Endpoint, now: nat)
    requires Inv(w) && m.DeviceSnapshot? && MessageOk(m) && Packet(m, from) in w.sent
    ensures Inv(Delivered(w, m, from, now))
  {
    hide RegistryOk, SentOk, SentOnce, MessageOk, LogsOk, AllShown, Accepts, AfterSnapshot;
    SnapshotKeeps(w.devices, m, from, now);
    if Accepts(w.devices, m, from) {
      LoggedOk(w, m, from);
      SnapshotShows(w, m, from, now);
    } else {
      assert AfterSnapshot(w.devices, m, from, now) == w.devices by { RefusedChangesNothing(w.devices, m, from, now); }
    }
  }

  lemma OrderedAppend(sent: set<Packet>, id: Uuid, log: seq<Message>, m: Message)
    requires Ordered(sent, id, log) && m.DeviceSnapshot? && m.deviceId == id && WasSent(sent, m)
    requires log != [] ==> log[|log| - 1].instanceId == m.instanceId && log[|log| - 1].sequence < m.sequence
    ensures Ordered(sent, id, log + [m])
  {
    hide WasSent;
    var r := log + [m];
    forall j, k | 0 <= j < k < |r| ensures r[j].instanceId == r[k].instanceId && r[j].sequence < r[k].sequence {
      assert j < |log| - 1 ==>
        log[j].instanceId == log[|log| - 1].instanceId && log[j].sequence < log[|log| - 1].sequence;
    }
  }

  /** An accepted snapshot is of the logged instance and newer than everything in the log. */
  lemma LoggedOk(w: World, m: Message, from: Endpoint)
    requires LogsOk(w.sent, w.log, w.epoch) && AllShown(w.log, w.epoch, w.devices)
    requires m.DeviceSnapshot? && Packet(m, from) in w.sent && Accepts(w.devices, m, from)
    ensures LogsOk(w.sent, w.log[m.deviceId := LogOf(w.log, m.deviceId) + [m]], w.epoch)
  {
    hide Ordered;
    var log' := w.log[m.deviceId := LogOf(w.log, m.deviceId) + [m]];
    assert Shows(w.log, w.epoch, w.devices[Find(w.devices, m.deviceId)]);
    assert WasSent(w.sent, m);
    forall k ensures Ordered(w.sent, k, LogOf(log', k)) {
      assert Ordered(w.sent, k, LogOf(w.log, k));
      if k == m.deviceId {
        OrderedAppend(w.sent, k, LogOf(w.log, k), m);
      }
    }
  }

  lemma SnapshotShows(w: World, m: Message, from: Endpoint, now: nat)
    requires RegistryOk(w.devices) && AllShown(w.log, w.epoch, w.devices)
    requires m.DeviceSnapshot? && Accepts(w.devices, m, from)
    ensures AllShown(w.log[m.deviceId := LogOf(w.log, m.deviceId) + [m]], w.epoch,
        AfterSnapshot(w.devices, m, from, now))
  {
    hide RegistryOk;
    var at := Find(w.devices, m.deviceId);
    OnlyOne(w.devices, at, m.deviceId);
    var devices := AfterSnapshot(w.devices, m, from, now);
    var log' := w.log[m.deviceId := LogOf(w.log, m.deviceId) + [m]];
    forall i | 0 <= i < |devices| ensures Shows(log', w.epoch, devices[i]) {
      assert Shows(w.log, w.epoch, w.devices[i]);
    }
  }

  lemma StepKeeps(w: World, e: Event)
    requires Inv(w) && Enabled(w, e)
    ensures Inv(Next(w, e))
  {
    hide Inv, Delivered;
    match e
    case Start(_, _) => DaemonStepKeeps(w, e);
    case SayHello(_, _) => DaemonStepKeeps(w, e);
    case Report(_, _) => DaemonStepKeeps(w, e);
    case Deliver(packet, now) => DeliveryKeeps(w, packet, now);
    case Age(now) => AgeKeeps(w, now);
    case Forget(id) => ForgetStepKeeps(w, id);
    case Restart => RestartKeeps(w);
  }

  lemma DeliveryKeeps(w: World, packet: Packet, now: nat)
    requires Inv(w) && packet in w.sent
    ensures Inv(Delivered(w, packet.message, packet.from, now))
  {
    hide Inv;
    var m := packet.message;
    assert packet == Packet(m, packet.from);
    if MessageOk(m) && m.Hello? {
      HelloDeliveryKeeps(w, m, packet.from, now);
    } else if MessageOk(m) && m.DeviceSnapshot? {
      SnapshotDeliveryKeeps(w, m, packet.from, now);
    }
  }

  lemma {:induction false} ReachableInv(events: seq<Event>)
    ensures Inv(After(events))
  {
    hide Next, Enabled, Inv;
    if events == [] {
      StartInv();
    } else {
      var w, e := After(events[..|events| - 1]), events[|events| - 1];
      ReachableInv(events[..|events| - 1]);
      if Enabled(w, e) {
        StepKeeps(w, e);
      }
    }
  }

  lemma StartInv()
    ensures Inv(START)
  {
  }

  // --- What holds over whole runs -------------------------------------------

  /**
   * Within an epoch of a device the applied snapshots carry strictly increasing sequence numbers of one instance,
   * each was sent by that instance under that number, and no other snapshot was sent under it.
   */
  lemma EpochsAreOrdered(events: seq<Event>, id: Uuid, k: nat)
    requires k < |LogOf(After(events).log, id)|
    ensures var w := After(events);
      var log := LogOf(w.log, id);
      && log[k].DeviceSnapshot? && log[k].deviceId == id
      && log[k].instanceId in w.daemons && w.daemons[log[k].instanceId].deviceId == id
      && (exists from :: Packet(log[k], from) in w.sent)
      && (forall p :: p in w.sent && SameNumber(p.message, log[k]) ==> p.message == log[k])
      && (forall j :: 0 <= j < k ==>
            log[j].DeviceSnapshot? && log[j].instanceId == log[k].instanceId && log[j].sequence < log[k].sequence)
  {
    hide RegistryOk, AllShown, After;
    ReachableInv(events);
    var w := After(events);
    var log := LogOf(w.log, id);
    assert Ordered(w.sent, id, log) && WasSent(w.sent, log[k]);
    var from :| Packet(log[k], from) in w.sent;
    forall p | p in w.sent && SameNumber(p.message, log[k]) ensures p.message == log[k] {
      assert SameNumber(p.message, Packet(log[k], from).message);
    }
  }

  lemma StepGrows(w: World, e: Event, id: Uuid)
    requires Inv(w) && Enabled(w, e)
    ensures var w' := Next(w, e);
      && EpochOf(w.epoch, id) <= EpochOf(w'.epoch, id)
      && (EpochOf(w.epoch, id) == EpochOf(w'.epoch, id) ==> LogOf(w.log, id) <= LogOf(w'.log, id))
  {
    hide RegistryOk, SentOk, SentOnce, AllShown, AfterHello, AfterSnapshot, Begins, Accepts, MessageOk, Ordered;
    assert LogOf(w.log, id) != [] ==> id in w.epoch;
  }

  /** As long as the epoch stays, what has been applied stays applied: the log only grows at its end. */
  lemma {:induction false} LogsOnlyGrow(events: seq<Event>, n: nat, id: Uuid)
    requires n <= |events|
    ensures var w, w' := After(events[..n]), After(events);
      && EpochOf(w.epoch, id) <= EpochOf(w'.epoch, id)
      && (EpochOf(w.epoch, id) == EpochOf(w'.epoch, id) ==> LogOf(w.log, id) <= LogOf(w'.log, id))
  {
    hide Next, Enabled, Inv;
    if n == |events| {
      assert events[..n] == events;
    } else {
      var front := events[..|events| - 1];
      assert front[..n] == events[..n];
      LogsOnlyGrow(front, n, id);
      ReachableInv(front);
      if Enabled(After(front), events[|events| - 1]) {
        StepGrows(After(front), events[|events| - 1], id);
      }
    }
  }

  /** A run's next report is newer than anything the registry has of it, so it is accepted from where it said hello. */
  lemma NextReportIsAccepted(w: World, instance: Uuid, metrics: Option<SystemMetrics>)
    requires Inv(w) && Enabled(w, Report(instance, metrics))
    requires var d := w.daemons[instance];
      var i := Find(w.devices, d.deviceId);
      i < |w.devices| && w.devices[i].instanceId == instance && w.devices[i].endpoint == d.endpoint
      && w.devices[i].interval == d.interval
    ensures Accepts(w.devices, SnapshotOf(instance, w.daemons[instance], metrics), w.daemons[instance].endpoint)
  {
    hide RegistryOk, SentOnce;
    var d := w.daemons[instance];
    var shown := w.devices[Find(w.devices, d.deviceId)];
    var log := LogOf(w.log, d.deviceId);
    assert Shows(w.log, w.epoch, shown) && Ordered(w.sent, d.deviceId, log);
    if log != [] {
      assert WasSent(w.sent, log[|log| - 1]);
      var from :| Packet(log[|log| - 1], from) in w.sent;
      assert Packet(log[|log| - 1], from).message == log[|log| - 1];
    }
  }

  /**
   * A pass of the daemon's loop in which the hello is accepted ends with its snapshot accepted, whatever went before.
   */
  lemma PassSucceeds(events: seq<Event>, instance: Uuid, from: Endpoint, now: nat, metrics: Option<SystemMetrics>)
    requires instance in After(events).daemons && After(events).daemons[instance].sequence < TWO_TO_THE_64
    requires MessageOk(HelloOf(instance, After(events).daemons[instance]))
    requires var w := After(events);
      AfterHello(w.devices, HelloOf(instance, w.daemons[instance]), from, now).reason == ""
    ensures var hello := HelloOf(instance, After(events).daemons[instance]);
      var w := Next(Next(After(events), SayHello(instance, from)), Deliver(Packet(hello, from), now));
      && Enabled(w, Report(instance, metrics))
      && Accepts(w.devices, SnapshotOf(instance, w.daemons[instance], metrics), from)
  {
    hide Inv, After, MessageOk;
    ReachableInv(events);
    var w0 := After(events);
    var hello := HelloOf(instance, w0.daemons[instance]);
    var w1 := Next(w0, SayHello(instance, from));
    StepKeeps(w0, SayHello(instance, from));
    var w2 := Next(w1, Deliver(Packet(hello, from), now));
    StepKeeps(w1, Deliver(Packet(hello, from), now));
    AcceptedHelloSettles(w1.devices, hello, from, now);
    NextReportIsAccepted(w2, instance, metrics);
  }

  lemma AcceptedHelloSettles(devices: seq<Device>, hello: Message, from: Endpoint, now: int)
    requires hello.Hello? && AfterHello(devices, hello, from, now).reason == ""
    ensures var r := AfterHello(devices, hello, from, now).devices;
      var i := Find(r, hello.deviceId);
      && i < |r| && r[i].instanceId == hello.instanceId && r[i].endpoint == from && r[i].interval == hello.interval
  {
    hide Fresh;
    var current := Refreshed(devices, now);
    var r := AfterHello(devices, hello, from, now).devices;
    FoundAt(r, hello.deviceId, Find(current, hello.deviceId));
  }

  /** Freshness is a function of the last snapshot and the clock: how often it was recomputed leaves no trace. */
  lemma FreshnessHasNoMemory(devices: seq<Device>, before: int, now: int)
    ensures Refreshed(Refreshed(devices, before), now) == Refreshed(devices, now)
  {
    forall i | 0 <= i < |devices| ensures Fresh(Fresh(devices[i], before), now) == Fresh(devices[i], now) {
    }
    assert Refreshed(Refreshed(devices, before), now) == Refreshed(devices, now);
  }
}
