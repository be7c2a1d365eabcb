/** Concrete runs of the telemetry protocol in which snapshots of one daemon's run are applied out of order. */
module ReplayRuns {
  import opened Wrappers
  import opened TelemetryTypes
  import opened DeviceRegistry
  import opened TelemetryProtocol
  import opened TelemetryReplay

  // --- What the registry does, from any state -------------------------------------

  /** The device at `i` is the one of this hello, fresh in its epoch. */
  ghost predicate Settled(devices: seq<Device>, i: nat, hello: Message, from: Endpoint)
    requires hello.Hello?
  {
    && i < |devices| && Find(devices, hello.deviceId) == i && devices[i].endpoint == from
    && devices[i].instanceId == hello.instanceId && devices[i].interval == hello.interval
    && devices[i].lastSequence == None
  }

  lemma FirstHello(devices: seq<Device>, a: Message, from: Endpoint, now: nat) returns (i: nat)
    requires a.Hello? && Begins(devices, a, from, now)
    ensures i == Find(devices, a.deviceId) && Settled(AfterHello(devices, a, from, now).devices, i, a, from)
  {
    hide Fresh;
    i := Find(devices, a.deviceId);
    FindRefreshed(devices, now, a.deviceId);
    FoundAt(AfterHello(devices, a, from, now).devices, a.deviceId, i);
  }

  /** Two runs of a device's daemon on one host: the hello of the first arrives again after that of the second. */
  lemma ReplayedEpoch(devices: seq<Device>, a: Message, b: Message, s: Message, from: Endpoint, other: Endpoint,
                      now: nat)
    requires a.Hello? && b.Hello? && s.DeviceSnapshot? && from.address == other.address
    requires a.deviceId == b.deviceId == s.deviceId && a.instanceId == s.instanceId != b.instanceId
    requires a.interval == s.interval && Begins(devices, a, from, now)
    ensures var d1 := AfterHello(devices, a, from, now).devices;
      var d2 := AfterSnapshot(d1, s, from, now);
      var d3 := AfterHello(d2, b, other, now).devices;
      var d4 := AfterHello(d3, a, from, now).devices;
      && Accepts(d1, s, from) && Begins(d2, b, other, now) && Begins(d3, a, from, now) && Accepts(d4, s, from)
  {
    hide AfterHello, AfterSnapshot, Accepts, Begins;
    var d1 := AfterHello(devices, a, from, now).devices;
    var i := FirstHello(devices, a, from, now);
    SettledAccepts(d1, s, from, now, i);
    var d2 := AfterSnapshot(d1, s, from, now);
    NewRunSameHost(d2, b, other, now, i);
    var d3 := AfterHello(d2, b, other, now).devices;
    NewRunSameHost(d3, a, from, now, i);
    SettledAccepts(AfterHello(d3, a, from, now).devices, s, from, now, i);
  }

  lemma SettledAccepts(devices: seq<Device>, s: Message, from: Endpoint, now: nat, i: nat)
    requires s.DeviceSnapshot? && i < |devices| && Find(devices, s.deviceId) == i && devices[i].endpoint == from
    requires devices[i].instanceId == s.instanceId && devices[i].interval == s.interval
    requires devices[i].lastSequence == None
    ensures Accepts(devices, s, from)
    ensures var r := AfterSnapshot(devices, s, from, now);
      i < |r| && Find(r, s.deviceId) == i && r[i].endpoint == from && r[i].instanceId == s.instanceId
  {
    FoundAt(AfterSnapshot(devices, s, from, now), s.deviceId, i);
  }

  lemma NewRunSameHost(devices: seq<Device>, b: Message, from: Endpoint, now: nat, i: nat)
    requires b.Hello? && i < |devices| && Find(devices, b.deviceId) == i && devices[i].endpoint.address == from.address
    requires devices[i].instanceId != b.instanceId
    ensures Begins(devices, b, from, now) && Settled(AfterHello(devices, b, from, now).devices, i, b, from)
  {
    hide Fresh;
    FindRefreshed(devices, now, b.deviceId);
    FoundAt(AfterHello(devices, b, from, now).devices, b.deviceId, i);
  }

  /** The dashboard is restarted; the run's hello arrives from another port of its host, then again from the old one. */
  lemma MovedHello(devices: seq<Device>, a: Message, s: Message, from: Endpoint, other: Endpoint, now: nat)
    requires a.Hello? && s.DeviceSnapshot? && a.deviceId == s.deviceId && a.instanceId == s.instanceId != NULL_ID
    requires a.interval == s.interval && Begins(devices, a, from, now)
    ensures var d1 := AfterHello(devices, a, from, now).devices;
      var d2 := Restored(AfterSnapshot(d1, s, from, now));
      var d3 := AfterHello(d2, a, other, now).devices;
      var d4 := AfterHello(d3, a, from, now).devices;
      && Accepts(d1, s, from) && Begins(d2, a, other, now) && !Begins(d3, a, from, now) && Accepts(d4, s, from)
  {
    hide AfterHello, AfterSnapshot, Accepts, Begins;
    var d1 := AfterHello(devices, a, from, now).devices;
    var i := FirstHello(devices, a, from, now);
    SettledAccepts(d1, s, from, now, i);
    var before := AfterSnapshot(d1, s, from, now);
    AfterRestart(before, a, other, now, i);
    var d3 := AfterHello(Restored(before), a, other, now).devices;
    SameRunMoves(d3, a, other, from, now, i);
    SettledAccepts(AfterHello(d3, a, from, now).devices, s, from, now, i);
  }

  /** The dashboard is restarted, and an older snapshot that was held up arrives behind the repeated hello. */
  lemma HeldUpSnapshot(devices: seq<Device>, a: Message, s: Message, newer: Message, from: Endpoint, now: nat)
    requires a.Hello? && s.DeviceSnapshot? && newer.DeviceSnapshot? && a.deviceId == s.deviceId == newer.deviceId
    requires a.instanceId == s.instanceId == newer.instanceId != NULL_ID
    requires a.interval == s.interval == newer.interval && Begins(devices, a, from, now)
    ensures var d1 := AfterHello(devices, a, from, now).devices;
      var d2 := Restored(AfterSnapshot(d1, newer, from, now));
      && Accepts(d1, newer, from) && Begins(d2, a, from, now)
      && Accepts(AfterHello(d2, a, from, now).devices, s, from)
  {
    hide AfterHello, AfterSnapshot, Accepts, Begins;
    var d1 := AfterHello(devices, a, from, now).devices;
    var i := FirstHello(devices, a, from, now);
    SettledAccepts(d1, newer, from, now, i);
    var before := AfterSnapshot(d1, newer, from, now);
    AfterRestart(before, a, from, now, i);
    SettledAccepts(AfterHello(Restored(before), a, from, now).devices, s, from, now, i);
  }

  lemma AfterRestart(devices: seq<Device>, a: Message, from: Endpoint, now: nat, i: nat)
    requires a.Hello? && i < |devices| && Find(devices, a.deviceId) == i && a.instanceId != NULL_ID
    ensures var r := Restored(devices);
      Begins(r, a, from, now) && Settled(AfterHello(r, a, from, now).devices, i, a, from)
  {
    hide AfterHello, Begins;
    var r := Restored(devices);
    FoundAt(r, a.deviceId, i);
    OfflineIsFree(r, a, from, now, i);
    var j := FirstHello(r, a, from, now);
  }

  lemma OfflineIsFree(devices: seq<Device>, a: Message, from: Endpoint, now: nat, i: nat)
    requires a.Hello? && i < |devices| && Find(devices, a.deviceId) == i && devices[i].instanceId != a.instanceId
    requires devices[i].state == Offline && devices[i].lastSnapshotMs < 0
    ensures Begins(devices, a, from, now)
  {
    FindRefreshed(devices, now, a.deviceId);
  }

  lemma SameRunMoves(devices: seq<Device>, a: Message, from: Endpoint, to: Endpoint, now: nat, i: nat)
    requires a.Hello? && Settled(devices, i, a, from)
    ensures !Begins(devices, a, to, now) && Settled(AfterHello(devices, a, to, now).devices, i, a, to)
  {
    hide Fresh;
    FindRefreshed(devices, now, a.deviceId);
    FoundAt(AfterHello(devices, a, to, now).devices, a.deviceId, i);
  }

  // --- Three runs from the empty registry -----------------------------------------

  const DEVICE: Uuid := [1, 0, 0, 0, 0, 0, 0, 0, 0, 0, 0, 0, 0, 0, 0, 0]
  const FIRST_RUN: Uuid := [2, 0, 0, 0, 0, 0, 0, 0, 0, 0, 0, 0, 0, 0, 0, 0]
  const SECOND_RUN: Uuid := [3, 0, 0, 0, 0, 0, 0, 0, 0, 0, 0, 0, 0, 0, 0, 0]
  const SOCKET := Endpoint(Address.Host(1), 40000)
  const OTHER_SOCKET := Endpoint(Address.Host(1), 40001)
  const INFO := SystemInfo(
    TelemetryTypes.Host(Some("pi")), OperatingSystem(None, None, None, None), Kernel(None, None),
    Hardware(None, None, None, None), CpuInfo(None, None, None, None, None), MemoryInfo(None))
  const DAEMON := Daemon(DEVICE, "pi", 1, INFO, 0, Endpoint(NoAddress, 0), false)
  const FIRST_HELLO := Hello(DEVICE, FIRST_RUN, "pi", 1, INFO)
  const SECOND_HELLO := Hello(DEVICE, SECOND_RUN, "pi", 1, INFO)
  const SNAPSHOT := DeviceSnapshot(DEVICE, FIRST_RUN, 1, 0, INFO, None)
  const NEWER := DeviceSnapshot(DEVICE, FIRST_RUN, 1, 1, INFO, None)

  /** The daemon is restarted on its host, and then the network delivers the first run's two datagrams once more. */
  const REPLAY: seq<Event> := [
    Start(FIRST_RUN, DAEMON),
    SayHello(FIRST_RUN, SOCKET),
    Deliver(Packet(FIRST_HELLO, SOCKET), 0),
    Report(FIRST_RUN, None),
    Deliver(Packet(SNAPSHOT, SOCKET), 0),
    Start(SECOND_RUN, DAEMON),
    SayHello(SECOND_RUN, OTHER_SOCKET),
    Deliver(Packet(SECOND_HELLO, OTHER_SOCKET), 0),
    Deliver(Packet(FIRST_HELLO, SOCKET), 0),
    Deliver(Packet(SNAPSHOT, SOCKET), 0)]

  /** The registry applies the first run's snapshot twice, although no sequence number was ever sent twice. */
  lemma ReplayHappens()
    ensures After(REPLAY).applied == [Packet(SNAPSHOT, SOCKET), Packet(SNAPSHOT, SOCKET)]
    ensures !InOrder(After(REPLAY).applied) && After(REPLAY).begun == [FIRST_RUN, SECOND_RUN, FIRST_RUN]
  {
    hide After, AfterHello, AfterSnapshot, Accepts, Begins, MessageOk;
    WitnessIsOk();
    FirstBegins();
    ReplayedEpoch([], FIRST_HELLO, SECOND_HELLO, SNAPSHOT, SOCKET, OTHER_SOCKET, 0);
    var w6 := SecondRunStarts();
    var w7 := Advance(REPLAY, 6);
    assert Packet(SECOND_HELLO, OTHER_SOCKET) in w7.sent;
    var w8 := Advance(REPLAY, 7);
    var w9 := Advance(REPLAY, 8);
    var w10 := Advance(REPLAY, 9);
    assert REPLAY[..10] == REPLAY;
    assert w10.applied[0].message.instanceId == w10.applied[1].message.instanceId;
  }

  /**
   * The dashboard is restarted; a hello from another port begins the second epoch, and one from the old port follows.
   */
  const MOVED: seq<Event> := REPLAY[..5] + [
    Restart,
    SayHello(FIRST_RUN, OTHER_SOCKET),
    Deliver(Packet(FIRST_HELLO, OTHER_SOCKET), 0),
    Deliver(Packet(FIRST_HELLO, SOCKET), 0),
    Deliver(Packet(SNAPSHOT, SOCKET), 0)]

  /** The snapshot is applied twice, though nothing had been applied from the endpoint that began the second epoch. */
  lemma MovedHelloReplays()
    ensures After(MOVED).applied == [Packet(SNAPSHOT, SOCKET), Packet(SNAPSHOT, SOCKET)]
      && !InOrder(After(MOVED).applied)
    ensures After(MOVED[..8]).begun == After(MOVED).begun == [FIRST_RUN, FIRST_RUN]
    ensures !AppliedBefore(After(MOVED[..8]).applied, FIRST_RUN, OTHER_SOCKET)
  {
    hide After, AfterHello, AfterSnapshot, Accepts, Begins, MessageOk;
    WitnessIsOk();
    FirstBegins();
    MovedHello([], FIRST_HELLO, SNAPSHOT, SOCKET, OTHER_SOCKET, 0);
    var w7 := DashboardRestarts();
    var w8 := Advance(MOVED, 7);
    var w9 := Advance(MOVED, 8);
    var w10 := Advance(MOVED, 9);
    assert MOVED[..10] == MOVED;
    assert w10.applied[0].message.instanceId == w10.applied[1].message.instanceId;
  }

  lemma DashboardRestarts() returns (w: World)
    ensures w == After(MOVED[..7]) && w.applied == [Packet(SNAPSHOT, SOCKET)] && w.begun == [FIRST_RUN]
    ensures Packet(FIRST_HELLO, SOCKET) in w.sent && Packet(SNAPSHOT, SOCKET) in w.sent
    ensures Packet(FIRST_HELLO, OTHER_SOCKET) in w.sent
    ensures w.devices
      == Restored(AfterSnapshot(AfterHello([], FIRST_HELLO, SOCKET, 0).devices, SNAPSHOT, SOCKET, 0))
  {
    hide After, AfterHello, AfterSnapshot, MessageOk;
    var w5 := FirstRunReports();
    assert MOVED[..5] == REPLAY[..5];
    var w6 := Advance(MOVED, 5);
    w := Advance(MOVED, 6);
    assert Packet(FIRST_HELLO, OTHER_SOCKET) in w.sent;
  }

  /** One run on one port: its first snapshot is held up until the dashboard has been restarted. */
  const HELD_UP: seq<Event> := REPLAY[..4] + [
    SayHello(FIRST_RUN, SOCKET),
    Report(FIRST_RUN, None),
    Deliver(Packet(NEWER, SOCKET), 0),
    Restart,
    Deliver(Packet(FIRST_HELLO, SOCKET), 0),
    Deliver(Packet(SNAPSHOT, SOCKET), 0)]

  /** The order breaks although no snapshot is applied twice. */
  lemma HeldUpSnapshotIsApplied()
    ensures After(HELD_UP).applied == [Packet(NEWER, SOCKET), Packet(SNAPSHOT, SOCKET)]
    ensures !InOrder(After(HELD_UP).applied)
  {
    hide After, AfterHello, AfterSnapshot, Accepts, Begins, MessageOk;
    WitnessIsOk();
    FirstBegins();
    HeldUpSnapshot([], FIRST_HELLO, SNAPSHOT, NEWER, SOCKET, 0);
    var w6 := FirstRunSendsAgain();
    var w7 := Advance(HELD_UP, 6);
    var w8 := Advance(HELD_UP, 7);
    var w9 := Advance(HELD_UP, 8);
    var w10 := Advance(HELD_UP, 9);
    assert HELD_UP[..10] == HELD_UP;
    assert w10.applied[0].message.instanceId == w10.applied[1].message.instanceId;
  }

  lemma FirstRunSendsAgain() returns (w: World)
    ensures w == After(HELD_UP[..6])
    ensures Packet(FIRST_HELLO, SOCKET) in w.sent && Packet(SNAPSHOT, SOCKET) in w.sent
      && Packet(NEWER, SOCKET) in w.sent
    ensures w.devices == AfterHello([], FIRST_HELLO, SOCKET, 0).devices && w.applied == [] && w.begun == [FIRST_RUN]
  {
    hide After, AfterHello, AfterSnapshot, Accepts, Begins, MessageOk;
    var w4 := FirstRunSends();
    assert HELD_UP[..4] == REPLAY[..4];
    var w5 := Advance(HELD_UP, 4);
    assert w5.daemons[FIRST_RUN] == DAEMON.(sequence := 1, endpoint := SOCKET, greeted := true);
    w := Advance(HELD_UP, 5);
    assert Packet(NEWER, SOCKET) in w.sent;
  }

  /** Where things stand when the first run has greeted and reported. */
  lemma FirstRunSends() returns (w: World)
    ensures w == After(REPLAY[..4]) && FIRST_RUN in w.daemons && SECOND_RUN !in w.daemons
    ensures w.daemons[FIRST_RUN] == DAEMON.(sequence := 1, endpoint := SOCKET)
    ensures Packet(FIRST_HELLO, SOCKET) in w.sent && Packet(SNAPSHOT, SOCKET) in w.sent
    ensures w.devices == AfterHello([], FIRST_HELLO, SOCKET, 0).devices && w.applied == [] && w.begun == [FIRST_RUN]
  {
    hide After, AfterHello, AfterSnapshot, Accepts, Begins, MessageOk;
    WitnessIsOk();
    FirstBegins();
    NothingHappened();
    assert REPLAY[..0] == [];
    var w1 := Advance(REPLAY, 0);
    var w2 := Advance(REPLAY, 1);
    assert Packet(FIRST_HELLO, SOCKET) in w2.sent;
    var w3 := Advance(REPLAY, 2);
    assert w3.daemons[FIRST_RUN] == DAEMON.(endpoint := SOCKET, greeted := true);
    w := Advance(REPLAY, 3);
    assert Packet(SNAPSHOT, SOCKET) in w.sent;
  }

  /** Where things stand when the first run's snapshot has been applied. */
  lemma FirstRunReports() returns (w: World)
    ensures w == After(REPLAY[..5]) && FIRST_RUN in w.daemons && SECOND_RUN !in w.daemons
    ensures w.daemons[FIRST_RUN] == DAEMON.(sequence := 1, endpoint := SOCKET)
    ensures Packet(FIRST_HELLO, SOCKET) in w.sent && Packet(SNAPSHOT, SOCKET) in w.sent
    ensures w.devices == AfterSnapshot(AfterHello([], FIRST_HELLO, SOCKET, 0).devices, SNAPSHOT, SOCKET, 0)
    ensures w.applied == [Packet(SNAPSHOT, SOCKET)] && w.begun == [FIRST_RUN]
  {
    hide After, AfterHello, AfterSnapshot, Accepts, Begins, MessageOk;
    WitnessIsOk();
    FirstBegins();
    ReplayedEpoch([], FIRST_HELLO, SECOND_HELLO, SNAPSHOT, SOCKET, OTHER_SOCKET, 0);
    var w4 := FirstRunSends();
    w := Advance(REPLAY, 4);
  }

  lemma SecondRunStarts() returns (w: World)
    ensures w == After(REPLAY[..6]) && SECOND_RUN in w.daemons && w.daemons[SECOND_RUN] == DAEMON
    ensures Packet(FIRST_HELLO, SOCKET) in w.sent && Packet(SNAPSHOT, SOCKET) in w.sent
    ensures w.devices == AfterSnapshot(AfterHello([], FIRST_HELLO, SOCKET, 0).devices, SNAPSHOT, SOCKET, 0)
    ensures w.applied == [Packet(SNAPSHOT, SOCKET)] && w.begun == [FIRST_RUN]
  {
    hide After, AfterHello, AfterSnapshot, MessageOk;
    var before := FirstRunReports();
    w := Advance(REPLAY, 5);
  }

  lemma Advance(events: seq<Event>, k: nat) returns (w: World)
    requires k < |events|
    ensures w == After(events[..k + 1])
    ensures var before := After(events[..k]);
      w == if Enabled(before, events[k]) then Next(before, events[k]) else before
  {
    w := After(events[..k + 1]);
    assert events[..k + 1][..k] == events[..k];
  }

  lemma NothingHappened()
    ensures After([]) == START
  {
  }

  lemma WitnessIsOk()
    ensures MessageOk(FIRST_HELLO) && MessageOk(SECOND_HELLO) && MessageOk(SNAPSHOT) && MessageOk(NEWER)
    ensures FIRST_RUN != SECOND_RUN && FIRST_RUN != NULL_ID
  {
    assert DEVICE[0] == 1 && FIRST_RUN[0] == 2 && SECOND_RUN[0] == 3;
    assert Utf8Size("pi") == 2 by {
      assert "pi"[1..] == "i" && "i"[1..] == "";
    }
  }

  lemma FirstBegins()
    ensures Begins([], FIRST_HELLO, SOCKET, 0)
  {
    assert Refreshed([], 0) == [];
  }
}
