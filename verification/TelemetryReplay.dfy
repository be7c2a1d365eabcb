/**
 * The order of applied snapshots over a whole run: it breaks exactly when a device without a sequence number accepts a
 * snapshot that is no newer than something already applied of its instance.
 */
module TelemetryReplay {
  import opened Wrappers
  import opened Ordering
  import opened TelemetryTypes
  import opened DeviceRegistry
  import opened TelemetryProtocol

  // --- The order, and what the registry remembers of it --------------------------

  /** Snapshots of one instance are applied in strictly increasing order. */
  ghost predicate InOrder(applied: seq<Packet>) {
    forall j, k :: 0 <= j < k < |applied| && applied[j].message.instanceId == applied[k].message.instanceId ==>
      applied[j].message.DeviceSnapshot? && applied[k].message.DeviceSnapshot?
      && applied[j].message.sequence < applied[k].message.sequence
  }

  /** Everything applied is a well-formed snapshot that was sent. */
  ghost predicate AppliedOk(w: World) {
    forall p :: p in w.applied ==> p in w.sent && p.message.DeviceSnapshot? && MessageOk(p.message)
  }

  /** The device runs under no instance, or under one of its own, at its interval, that has begun an epoch. */
  ghost predicate Owned(w: World, d: Device) {
    || IsNull(d.instanceId)
    || (d.instanceId in w.begun && d.instanceId in w.daemons
        && w.daemons[d.instanceId].deviceId == d.deviceId && w.daemons[d.instanceId].interval == d.interval)
  }

  /** The device's last sequence number is at least that of everything applied of its instance. */
  ghost predicate Ahead(applied: seq<Packet>, d: Device) {
    forall p :: p in applied && p.message.instanceId == d.instanceId ==>
      p.message.DeviceSnapshot? && d.lastSequence.Some? && p.message.sequence <= d.lastSequence.value
  }

  /** A sequence number stands for all there is while the order lasts, and none at all in an instance's first epoch. */
  ghost predicate Tracked(applied: seq<Packet>, begun: seq<Uuid>, d: Device) {
    (if d.lastSequence.Some? then InOrder(applied) else AllDifferent(begun)) ==> Ahead(applied, d)
  }

  ghost predicate TrackOk(w: World) {
    && AppliedOk(w)
    && (forall p :: p in w.applied ==> p.message.instanceId in w.begun)
    && (forall i :: 0 <= i < |w.devices| ==> Owned(w, w.devices[i]) && Tracked(w.applied, w.begun, w.devices[i]))
    && (AllDifferent(w.begun) ==> InOrder(w.applied))
  }

  lemma HelloDeliveryTracks(w: World, m: Message, from: Endpoint, now: nat)
    requires Inv(w) && TrackOk(w) && m.Hello? && MessageOk(m) && Packet(m, from) in w.sent
    ensures TrackOk(Delivered(w, m, from, now))
  {
    hide RegistryOk, SentOnce, LogsOk, AllShown, AfterHello, Begins, MessageOk, IsNull, InOrder, Ahead, SentOk;
    var w' := Delivered(w, m, from, now);
    HelloIsOwned(w, m, from);
    FrontIsDifferent(w.begun, m.instanceId);
    var r := AfterHello(w.devices, m, from, now).devices;
    forall i | 0 <= i < |r| ensures Owned(w', r[i]) && Tracked(w'.applied, w'.begun, r[i]) {
      if Begins(w.devices, m, from, now) {
        BegunDevice(w.devices, m, from, now, i);
        if r[i].deviceId == m.deviceId {
          NothingAppliedYet(w, m.instanceId, r[i]);
        } else {
          RefreshTracks(w, i, now);
        }
      } else {
        ContinuingDevice(w.devices, m, from, now, i);
        RefreshTracks(w, i, now);
        SameSequence(w, Refreshed(w.devices, now)[i], r[i], m, from);
      }
    }
  }

  lemma HelloIsOwned(w: World, m: Message, from: Endpoint)
    requires SentOk(w.daemons, w.sent) && Packet(m, from) in w.sent
    ensures m.instanceId in w.daemons
    ensures w.daemons[m.instanceId].deviceId == m.deviceId && w.daemons[m.instanceId].interval == m.interval
  {
    assert Packet(m, from).message == m;
  }

  lemma FrontIsDifferent(begun: seq<Uuid>, instance: Uuid)
    ensures AllDifferent(begun + [instance]) ==> AllDifferent(begun) && instance !in begun
  {
    var more := begun + [instance];
    assert more[|begun|] == instance;
    forall i | 0 <= i < |begun| ensures more[i] == begun[i] {
    }
  }

  lemma BegunDevice(devices: seq<Device>, m: Message, from: Endpoint, now: nat, i: nat)
    requires RegistryOk(devices) && m.Hello? && Begins(devices, m, from, now)
    requires i < |AfterHello(devices, m, from, now).devices|
    ensures var d := AfterHello(devices, m, from, now).devices[i];
      if d.deviceId == m.deviceId
      then d.instanceId == m.instanceId && d.interval == m.interval && d.lastSequence == None
      else i < |devices| && d == Refreshed(devices, now)[i]
  {
    hide RegistryOk, Fresh;
    FindRefreshed(devices, now, m.deviceId);
    OnlyOne(devices, Find(devices, m.deviceId), m.deviceId);
  }

  lemma NothingAppliedYet(w: World, instance: Uuid, d: Device)
    requires forall p :: p in w.applied ==> p.message.instanceId in w.begun
    requires d.instanceId == instance
    ensures instance !in w.begun ==> Ahead(w.applied, d)
  {
  }

  lemma RefreshTracks(w: World, i: nat, now: int)
    requires TrackOk(w) && i < |w.devices|
    ensures var d := Refreshed(w.devices, now)[i];
      Owned(w, d) && Tracked(w.applied, w.begun, d)
  {
    hide InOrder;
    assert Owned(w, w.devices[i]) && Tracked(w.applied, w.begun, w.devices[i]);
  }

  lemma SameSequence(w: World, before: Device, d: Device, m: Message, from: Endpoint)
    requires m.Hello? && (d == before || (before.instanceId == m.instanceId && d == Greeted(before, m, from)))
    requires Owned(w, before) && Tracked(w.applied, w.begun, before)
    requires m.instanceId in w.daemons && w.daemons[m.instanceId].interval == m.interval
    ensures Owned(w, d) && Tracked(w.applied, w.begun, d)
  {
    hide InOrder, IsNull;
  }

  lemma SnapshotDeliveryTracks(w: World, m: Message, from: Endpoint, now: nat)
    requires Inv(w) && TrackOk(w) && m.DeviceSnapshot? && MessageOk(m) && Packet(m, from) in w.sent
    ensures TrackOk(Delivered(w, m, from, now))
  {
    hide RegistryOk, SentOnce, LogsOk, AllShown, MessageOk, AfterSnapshot;
    hide SentOk, InOrder, Ahead, Accepts, Owned, Tracked;
    if Accepts(w.devices, m, from) {
      AcceptedTracks(w, m, from, now);
      AcceptedInOrder(w, m, from);
      var w' := Delivered(w, m, from, now);
      forall i | 0 <= i < |w'.devices|
        ensures Owned(w', w'.devices[i]) && Tracked(w'.applied, w'.begun, w'.devices[i])
      {
        assert Owned(w, w'.devices[i]);
        SameOwner(w, w', w'.devices[i]);
      }
    } else {
      RefusedChangesNothing(w.devices, m, from, now);
    }
  }

  lemma SameOwner(w: World, next: World, d: Device)
    requires Owned(w, d) && next.begun == w.begun && next.daemons == w.daemons
    ensures Owned(next, d)
  {
  }

  lemma AcceptedTracks(w: World, m: Message, from: Endpoint, now: nat)
    requires Inv(w) && TrackOk(w) && m.DeviceSnapshot? && MessageOk(m) && Packet(m, from) in w.sent
    requires Accepts(w.devices, m, from)
    ensures var r := AfterSnapshot(w.devices, m, from, now);
      && m.instanceId in w.begun
      && forall i :: 0 <= i < |r| ==> Owned(w, r[i]) && Tracked(w.applied + [Packet(m, from)], w.begun, r[i])
  {
    hide RegistryOk, SentOnce, LogsOk, AllShown, MessageOk, AfterSnapshot, SentOk, InOrder, Ahead, IsNull;
    var at := Find(w.devices, m.deviceId);
    var r := AfterSnapshot(w.devices, m, from, now);
    HelloIsOwned(w, m, from);
    InstanceIsNotNull(m);
    AcceptedDevice(w.devices, m, from, now);
    FrontIsInOrder(w.applied, Packet(m, from));
    NewestIsAhead(w.applied, w.devices[at], m, from, now);
    assert Owned(w, w.devices[at]);
    forall i | 0 <= i < |r| ensures Owned(w, r[i]) && Tracked(w.applied + [Packet(m, from)], w.begun, r[i]) {
      assert Owned(w, w.devices[i]) && Tracked(w.applied, w.begun, w.devices[i]);
      if i != at {
        OthersInstance(w, i, at, m);
        OtherStaysAhead(w.applied, w.devices[i], Packet(m, from));
      }
    }
  }

  lemma AcceptedInOrder(w: World, m: Message, from: Endpoint)
    requires TrackOk(w) && m.DeviceSnapshot? && Accepts(w.devices, m, from)
    ensures AllDifferent(w.begun) ==> InOrder(w.applied + [Packet(m, from)])
  {
    hide InOrder, Ahead;
    var d := w.devices[Find(w.devices, m.deviceId)];
    assert Tracked(w.applied, w.begun, d);
    if AllDifferent(w.begun) {
      NewerIsInOrder(w.applied, d, m, from);
    }
  }

  lemma InstanceIsNotNull(m: Message)
    requires MessageOk(m)
    ensures !IsNull(m.instanceId)
  {
    hide IsNull, InfoOk, MetricsOk;
  }

  lemma AcceptedDevice(devices: seq<Device>, m: Message, from: Endpoint, now: nat)
    requires m.DeviceSnapshot? && Accepts(devices, m, from)
    ensures var at, r := Find(devices, m.deviceId), AfterSnapshot(devices, m, from, now);
      && |r| == |devices| && at < |devices| && r[at] == Updated(devices[at], m, now)
      && forall i :: 0 <= i < |devices| && i != at ==> r[i] == devices[i]
  {
  }

  lemma FrontIsInOrder(applied: seq<Packet>, p: Packet)
    ensures InOrder(applied + [p]) ==> InOrder(applied)
  {
    var more := applied + [p];
    if InOrder(more) {
      forall j, k | 0 <= j < k < |applied| && applied[j].message.instanceId == applied[k].message.instanceId
        ensures applied[j].message.DeviceSnapshot? && applied[k].message.DeviceSnapshot?
        ensures applied[j].message.sequence < applied[k].message.sequence
      {
        assert more[j] == applied[j] && more[k] == applied[k];
      }
    }
  }

  /** Order alone puts the newest snapshot ahead of all before it. */
  lemma NewestIsAhead(applied: seq<Packet>, d: Device, m: Message, from: Endpoint, now: nat)
    requires m.DeviceSnapshot? && d.instanceId == m.instanceId
    ensures InOrder(applied + [Packet(m, from)]) ==> Ahead(applied + [Packet(m, from)], Updated(d, m, now))
  {
    var more := applied + [Packet(m, from)];
    if InOrder(more) {
      forall p | p in more && p.message.instanceId == m.instanceId
        ensures p.message.DeviceSnapshot? && p.message.sequence <= m.sequence
      {
        var j :| 0 <= j < |more| && more[j] == p;
        assert more[|applied|].message == m;
      }
    }
  }

  lemma NewerIsInOrder(applied: seq<Packet>, d: Device, m: Message, from: Endpoint)
    requires m.DeviceSnapshot? && Acceptable(d, m, from) && Ahead(applied, d) && InOrder(applied)
    ensures InOrder(applied + [Packet(m, from)])
  {
    var more := applied + [Packet(m, from)];
    forall j | 0 <= j < |applied| && applied[j].message.instanceId == m.instanceId
      ensures applied[j].message.DeviceSnapshot? && applied[j].message.sequence < m.sequence
    {
      assert applied[j] in applied;
    }
  }

  /** An instance belongs to one device. */
  lemma OthersInstance(w: World, i: nat, at: nat, m: Message)
    requires RegistryOk(w.devices) && i < |w.devices| && at < |w.devices| && i != at
    requires Owned(w, w.devices[i]) && !IsNull(m.instanceId) && w.devices[at].deviceId == m.deviceId
    requires m.instanceId in w.daemons && w.daemons[m.instanceId].deviceId == m.deviceId
    ensures w.devices[i].instanceId != m.instanceId
  {
    hide DeviceOk, IsNull;
    assert w.devices[if i < at then i else at].deviceId != w.devices[if i < at then at else i].deviceId;
  }

  lemma OtherStaysAhead(applied: seq<Packet>, d: Device, p: Packet)
    requires d.instanceId != p.message.instanceId
    ensures Ahead(applied, d) ==> Ahead(applied + [p], d)
  {
  }

  lemma StepTracks(w: World, e: Event)
    requires Inv(w) && TrackOk(w) && Enabled(w, e)
    ensures TrackOk(Next(w, e))
  {
    hide RegistryOk, SentOnce, LogsOk, AllShown, Delivered, MessageOk, InOrder, Forgotten, SentOk, Tracked;
    match e
    case Deliver(packet, now) =>
      assert packet == Packet(packet.message, packet.from);
      if packet.message.RegistrationResult? || !MessageOk(packet.message) {
        Undecodable(w, packet.message, packet.from, now);
      } else if packet.message.Hello? {
        HelloDeliveryTracks(w, packet.message, packet.from, now);
      } else {
        SnapshotDeliveryTracks(w, packet.message, packet.from, now);
      }
    case Age(now) =>
      forall i | 0 <= i < |w.devices|
        ensures var d := Refreshed(w.devices, now)[i];
          Owned(w, d) && Tracked(w.applied, w.begun, d)
      {
        RefreshTracks(w, i, now);
      }
    case Forget(id) =>
      ForgetKeeps(w.devices, id);
      var r := Forgotten(w.devices, id);
      forall i | 0 <= i < |r| ensures Owned(w, r[i]) && Tracked(w.applied, w.begun, r[i]) {
        assert r[i] in r;
        var k :| 0 <= k < |w.devices| && w.devices[k] == r[i];
        assert Owned(w, w.devices[k]) && Tracked(w.applied, w.begun, w.devices[k]);
      }
    case Restart =>
      NullIsNull();
      NullInstancesAreTracked(w);
    case _ =>
      forall i | 0 <= i < |w.devices| ensures Owned(Next(w, e), w.devices[i]) {
        assert Owned(w, w.devices[i]);
      }
  }

  lemma Undecodable(w: World, m: Message, from: Endpoint, now: nat)
    requires m.RegistrationResult? || !MessageOk(m)
    ensures Delivered(w, m, from, now) == w
  {
  }

  lemma NullIsNull()
    ensures IsNull(NULL_ID)
  {
  }

  lemma NullInstancesAreTracked(w: World)
    requires AppliedOk(w)
    ensures forall i :: 0 <= i < |w.devices| ==> Tracked(w.applied, w.begun, Restored(w.devices)[i])
  {
    hide InfoOk, MetricsOk, InOrder;
    NullIsNull();
  }

  lemma {:induction false} ReachableTracks(events: seq<Event>)
    ensures TrackOk(After(events))
  {
    hide Next, Enabled, TrackOk, Inv;
    if events == [] {
      StartTracks();
    } else {
      var w, e := After(events[..|events| - 1]), events[|events| - 1];
      ReachableInv(events[..|events| - 1]);
      ReachableTracks(events[..|events| - 1]);
      if Enabled(w, e) {
        StepTracks(w, e);
      }
    }
  }

  lemma StartTracks()
    ensures TrackOk(START)
  {
  }

  // --- Exactly when the order breaks ----------------------------------------------

  /** Something at least as new as this snapshot has been applied of its instance. */
  ghost predicate Passed(applied: seq<Packet>, m: Message)
    requires m.DeviceSnapshot?
  {
    exists q :: q in applied && q.message.DeviceSnapshot? && q.message.instanceId == m.instanceId
      && m.sequence <= q.message.sequence
  }

  /**
   * The packet holds a snapshot that the registry takes because its device has no sequence number, though something
   * at least as new has been applied of its instance.
   */
  ghost predicate Exposed(w: World, p: Packet) {
    && p.message.DeviceSnapshot? && MessageOk(p.message)
    && var i := Find(w.devices, p.message.deviceId);
    && i < |w.devices| && w.devices[i].lastSequence == None
    && w.devices[i].instanceId == p.message.instanceId && w.devices[i].endpoint == p.from
    && w.devices[i].interval == p.message.interval
    && Passed(w.applied, p.message)
  }

  /** In every run: while the order lasts, the next event breaks it exactly when it delivers an exposed packet. */
  lemma NextBreaksOrder(events: seq<Event>, e: Event)
    requires Enabled(After(events), e) && InOrder(After(events).applied)
    ensures !InOrder(Next(After(events), e).applied) <==> e.Deliver? && Exposed(After(events), e.packet)
  {
    hide After, InOrder, Exposed, TrackOk, Delivered, Inv;
    ReachableTracks(events);
    if e.Deliver? {
      assert e.packet == Packet(e.packet.message, e.packet.from);
      DeliveryBreaksOrder(After(events), e.packet, e.now);
    }
  }

  lemma DeliveryBreaksOrder(w: World, p: Packet, now: nat)
    requires TrackOk(w)
    ensures Exposed(w, p) ==> !InOrder(Delivered(w, p.message, p.from, now).applied)
    ensures InOrder(w.applied) && !InOrder(Delivered(w, p.message, p.from, now).applied) ==> Exposed(w, p)
  {
    hide MessageOk, InOrder, Ahead, AfterSnapshot, AfterHello, Begins, Passed;
    var m := p.message;
    assert p == Packet(m, p.from);
    if m.DeviceSnapshot? && MessageOk(m) && Accepts(w.devices, m, p.from) {
      var d := w.devices[Find(w.devices, m.deviceId)];
      assert Tracked(w.applied, w.begun, d);
      PassedBreaks(w.applied, p);
      if InOrder(w.applied) && d.lastSequence.Some? {
        NewerIsInOrder(w.applied, d, m, p.from);
      }
    }
  }

  lemma PassedBreaks(applied: seq<Packet>, p: Packet)
    requires p.message.DeviceSnapshot? && forall q :: q in applied ==> q.message.DeviceSnapshot?
    ensures Passed(applied, p.message) ==> !InOrder(applied + [p])
    ensures InOrder(applied) && !Passed(applied, p.message) ==> InOrder(applied + [p])
  {
    var more := applied + [p];
    assert more[|applied|] == p;
    forall j | 0 <= j < |applied| ensures more[j] == applied[j] && applied[j] in applied {
    }
    if Passed(applied, p.message) {
      var q :| q in applied && q.message.DeviceSnapshot? && q.message.instanceId == p.message.instanceId
        && p.message.sequence <= q.message.sequence;
      var j :| 0 <= j < |applied| && applied[j] == q;
      assert more[j].message.instanceId == more[|applied|].message.instanceId;
    }
  }

  /** The k-th event delivers a packet that is exposed when its turn comes. */
  ghost predicate BreaksAt(events: seq<Event>, k: nat)
    requires k < |events|
  {
    var w := After(events[..k]);
    Enabled(w, events[k]) && events[k].Deliver? && Exposed(w, events[k].packet)
  }

  /**
   * Over every run: the applied snapshots are out of order exactly when some event of the run delivered a packet that
   * was exposed at that moment.
   */
  lemma {:induction false} OrderBreaksExactly(events: seq<Event>)
    ensures !InOrder(After(events).applied) <==> exists k :: 0 <= k < |events| && BreaksAt(events, k)
  {
    hide InOrder, Exposed, Next, Enabled, BreaksAt;
    if events == [] {
      StartIsInOrder();
    } else {
      var n := |events| - 1;
      var front := events[..n];
      OrderBreaksExactly(front);
      LastEventBreaks(front, events[n]);
      forall k | 0 <= k < n ensures BreaksAt(events, k) <==> BreaksAt(front, k) {
        SameBreak(events, n, k);
      }
      assert events == front + [events[n]];
    }
  }

  lemma StartIsInOrder()
    ensures InOrder(After([]).applied)
  {
  }

  lemma SameBreak(events: seq<Event>, n: nat, k: nat)
    requires k < n <= |events|
    ensures BreaksAt(events, k) <==> BreaksAt(events[..n], k)
  {
    hide After, Exposed, Enabled;
    assert events[..n][..k] == events[..k];
  }

  lemma LastEventBreaks(front: seq<Event>, e: Event)
    ensures !InOrder(After(front + [e]).applied) <==> !InOrder(After(front).applied) || BreaksAt(front + [e], |front|)
  {
    hide InOrder, Exposed, Next, Enabled;
    var events := front + [e];
    assert events[..|front|] == front && events[|front|] == e;
    var w := After(front);
    if Enabled(w, e) {
      OnceBrokenAlwaysBroken(w, e);
      if InOrder(w.applied) {
        NextBreaksOrder(front, e);
      }
    }
  }

  lemma OnceBrokenAlwaysBroken(w: World, e: Event)
    requires Enabled(w, e)
    ensures InOrder(Next(w, e).applied) ==> InOrder(w.applied)
  {
    hide InOrder, MessageOk, AfterHello, AfterSnapshot, Begins, Accepts;
    if e.Deliver? {
      FrontIsInOrder(w.applied, Packet(e.packet.message, e.packet.from));
    }
  }

  /** In every run in which no instance begins two epochs, snapshots of an instance are applied in order throughout. */
  lemma OrderHoldsThroughout(events: seq<Event>)
    requires AllDifferent(After(events).begun)
    ensures InOrder(After(events).applied)
  {
    hide After, InOrder, AppliedOk;
    ReachableTracks(events);
  }

  // --- Exactly when a snapshot can be applied twice -------------------------------

  /** A snapshot of this instance, sent from this endpoint, has been applied. */
  ghost predicate AppliedBefore(applied: seq<Packet>, instance: Uuid, from: Endpoint) {
    exists p :: p in applied && p.message.instanceId == instance && p.from == from
  }

  /** Some snapshot of this instance that has been applied would be accepted again. */
  ghost predicate Repeatable(w: World, instance: Uuid) {
    exists p :: p in w.applied && p.message.DeviceSnapshot? && p.message.instanceId == instance
      && MessageOk(p.message) && Accepts(w.devices, p.message, p.from)
  }

  /** A device without a sequence number accepts exactly the snapshots its instance sent from its endpoint. */
  lemma BlankAccepts(w: World, i: nat, p: Packet)
    requires Inv(w) && TrackOk(w) && i < |w.devices| && w.devices[i].lastSequence == None && p in w.sent
    requires p.message.DeviceSnapshot? && MessageOk(p.message) && p.message.instanceId == w.devices[i].instanceId
    ensures Accepts(w.devices, p.message, p.from) <==> p.from == w.devices[i].endpoint
  {
    hide RegistryOk, SentOnce, LogsOk, AllShown, MessageOk, IsNull, SentOk;
    assert Owned(w, w.devices[i]);
    InstanceIsNotNull(p.message);
    OwnPlace(w, i, p);
  }

  lemma OwnPlace(w: World, i: nat, p: Packet)
    requires RegistryOk(w.devices) && SentOk(w.daemons, w.sent) && i < |w.devices| && p in w.sent
    requires Owned(w, w.devices[i]) && !IsNull(w.devices[i].instanceId)
    requires p.message.instanceId == w.devices[i].instanceId
    ensures Find(w.devices, p.message.deviceId) == i && p.message.interval == w.devices[i].interval
  {
    hide RegistryOk, IsNull;
    assert p == Packet(p.message, p.from);
    HelloIsOwned(w, p.message, p.from);
    OnlyOne(w.devices, Find(w.devices, p.message.deviceId), p.message.deviceId);
  }

  /**
   * In every run and for every device in the registry: while the device has no sequence number, an applied snapshot of
   * its instance can be accepted again exactly when one sent from its present endpoint has been applied; with a
   * sequence number none can, as long as the order has lasted.
   */
  lemma ReplayNeedsTheSameEndpoint(events: seq<Event>, i: nat)
    requires i < |After(events).devices|
    ensures var w := After(events);
      var d := w.devices[i];
      if d.lastSequence == None then
        Repeatable(w, d.instanceId) <==> AppliedBefore(w.applied, d.instanceId, d.endpoint)
      else InOrder(w.applied) ==> !Repeatable(w, d.instanceId)
  {
    hide After, MessageOk, Accepts, RegistryOk, LogsOk, AllShown, SentOk, SentOnce, InOrder, Owned;
    ReachableInv(events);
    ReachableTracks(events);
    var w := After(events);
    var d := w.devices[i];
    assert Tracked(w.applied, w.begun, d);
    forall p | p in w.applied && p.message.instanceId == d.instanceId
      ensures d.lastSequence == None ==> (Accepts(w.devices, p.message, p.from) <==> p.from == d.endpoint)
      ensures d.lastSequence.Some? && InOrder(w.applied) ==> !Accepts(w.devices, p.message, p.from)
    {
      if d.lastSequence == None {
        BlankAccepts(w, i, p);
      } else if InOrder(w.applied) {
        OldIsRefused(w, i, p);
      }
    }
  }

  lemma OldIsRefused(w: World, i: nat, p: Packet)
    requires Inv(w) && TrackOk(w) && i < |w.devices| && w.devices[i].lastSequence.Some? && InOrder(w.applied)
    requires p in w.applied && p.message.instanceId == w.devices[i].instanceId
    ensures p.message.DeviceSnapshot? && !Accepts(w.devices, p.message, p.from)
  {
    hide RegistryOk, SentOnce, LogsOk, AllShown, MessageOk, IsNull, SentOk, InOrder;
    assert Owned(w, w.devices[i]) && Tracked(w.applied, w.begun, w.devices[i]);
    InstanceIsNotNull(p.message);
    OwnPlace(w, i, p);
  }

  /** A repeatable snapshot needs only to be delivered again: then it stands twice in what has been applied. */
  lemma RepeatBreaksTheOrder(w: World, instance: Uuid, now: nat) returns (p: Packet)
    requires AppliedOk(w) && Repeatable(w, instance)
    ensures p in w.applied && Enabled(w, Deliver(p, now))
    ensures Next(w, Deliver(p, now)).applied == w.applied + [p] && !InOrder(w.applied + [p])
  {
    hide MessageOk, Accepts, AfterSnapshot;
    p :| p in w.applied && p.message.DeviceSnapshot? && p.message.instanceId == instance
      && MessageOk(p.message) && Accepts(w.devices, p.message, p.from);
    assert p == Packet(p.message, p.from);
    var j :| 0 <= j < |w.applied| && w.applied[j] == p;
    var more := w.applied + [p];
    assert more[j].message.instanceId == more[|w.applied|].message.instanceId;
  }
}
