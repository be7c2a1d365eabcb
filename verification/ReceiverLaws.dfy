/** Which datagrams are answered, how, and which count: the receiver's loop seen from the network. */
module ReceiverLaws {
  import opened Wrappers
  import opened CborFormat
  import opened TelemetryTypes
  import opened TelemetrySchema
  import opened DeviceRegistry
  import opened RemoteRegistry

  /** The message in a datagram, if it is one. */
  function MessageIn(codec: Codec, d: Datagram): Option<Message> {
    if !d.valid || |d.bytes| > MAXIMUM_DATAGRAM_SIZE then None
    else
      match DecodeMessage(codec, d.bytes)
      case Refused(_) => None
      case Decoded(m) => Some(m)
  }

  predicate IsHello(codec: Codec, d: Datagram) {
    var m := MessageIn(codec, d);
    m.Some? && m.value.Hello?
  }

  /** The registry when the i-th datagram has been dealt with. */
  function AfterFirst(codec: Codec, devices: seq<Device>, batch: seq<Datagram>, n: nat): seq<Device>
    requires n <= |batch|
  {
    DispatchAll(codec, devices, batch[..n])
  }

  /** The registry holds the device under this instance. */
  predicate Holds(devices: seq<Device>, device: Uuid, instance: Uuid) {
    exists i :: 0 <= i < |devices| && devices[i].deviceId == device && devices[i].instanceId == instance
  }

  /** The indices of the hellos, in order. */
  function Hellos(codec: Codec, batch: seq<Datagram>): seq<nat> {
    if batch == [] then []
    else
      var n := |batch| - 1;
      Hellos(codec, batch[..n]) + if IsHello(codec, batch[n]) then [n] else []
  }

  lemma {:induction false} HellosAreAll(codec: Codec, batch: seq<Datagram>)
    ensures var h := Hellos(codec, batch);
      && (forall j, k :: 0 <= j < k < |h| ==> h[j] < h[k])
      && (forall i: nat :: i in h <==> i < |batch| && IsHello(codec, batch[i]))
  {
    hide IsHello;
    if batch != [] {
      var n := |batch| - 1;
      var front := Hellos(codec, batch[..n]);
      HellosAreAll(codec, batch[..n]);
      forall j | 0 <= j < |front| ensures front[j] < n {
        assert front[j] in front;
      }
    }
  }

  /**
   * The reply to the hello in a datagram: to its sender, with its ids, and saying whether the registry now holds it.
   */
  ghost predicate Answers(codec: Codec, after: seq<Device>, d: Datagram, r: Reply)
    requires IsHello(codec, d)
  {
    var hello := MessageIn(codec, d).value;
    && r.to == d.from && r.message.RegistrationResult?
    && r.message.deviceId == hello.deviceId && r.message.instanceId == hello.instanceId
    && (r.message.accepted <==> Holds(after, hello.deviceId, hello.instanceId))
    && (r.message.accepted <==> r.message.reason == "")
  }

  lemma HelloIsAnswered(codec: Codec, devices: seq<Device>, d: Datagram)
    requires RegistryOk(devices)
    ensures var e := Dispatch(codec, devices, d);
      (e.reply.Some? <==> IsHello(codec, d)) && (e.reply.Some? ==> Answers(codec, e.devices, d, e.reply.value))
  {
    hide DecodeMessage, Accepts, RegistryOk, AfterSnapshot, Holds, AfterHello;
    if IsHello(codec, d) {
      HelloTakesHold(devices, MessageIn(codec, d).value, d.from, d.now);
    }
  }

  lemma HelloTakesHold(devices: seq<Device>, hello: Message, from: Endpoint, now: nat)
    requires RegistryOk(devices) && hello.Hello?
    ensures var r := AfterHello(devices, hello, from, now);
      r.reason == "" <==> Holds(r.devices, hello.deviceId, hello.instanceId)
  {
    hide RegistryOk, Fresh;
    FindRefreshed(devices, now, hello.deviceId);
    var r, i := AfterHello(devices, hello, from, now), Find(devices, hello.deviceId);
    if r.reason == "" {
      assert r.devices[i].deviceId == hello.deviceId && r.devices[i].instanceId == hello.instanceId;
    } else if i < |devices| {
      forall k | 0 <= k < |devices| && k != i ensures devices[k].deviceId != hello.deviceId {
        OthersDiffer(devices, i, k);
      }
    }
  }

  lemma OthersDiffer(devices: seq<Device>, i: nat, k: nat)
    requires RegistryOk(devices) && i < |devices| && k < |devices| && i != k
    ensures devices[i].deviceId != devices[k].deviceId
  {
    hide DeviceOk;
    assert devices[if i < k then i else k].deviceId != devices[if i < k then k else i].deviceId;
  }

  /**
   * A batch gets exactly one reply for each datagram that is a hello, in order, to its sender and with its ids; it is
   * accepted exactly when the registry then holds that device under that instance.
   */
  lemma {:induction false} EveryHelloIsAnswered(codec: Codec, devices: seq<Device>, batch: seq<Datagram>)
    requires RegistryOk(devices)
    ensures var h, r := Hellos(codec, batch), Replies(codec, devices, batch);
      && |r| == |h|
      && forall k :: 0 <= k < |h| ==>
        && h[k] < |batch| && IsHello(codec, batch[h[k]])
        && Answers(codec, AfterFirst(codec, devices, batch, h[k] + 1), batch[h[k]], r[k])
  {
    hide Dispatch, RegistryOk, IsHello, Answers;
    HellosAreAll(codec, batch);
    if batch != [] {
      var n := |batch| - 1;
      var front := batch[..n];
      EveryHelloIsAnswered(codec, devices, front);
      AnyBytesKeepTheRegistry(codec, devices, front);
      HelloIsAnswered(codec, DispatchAll(codec, devices, front), batch[n]);
      assert batch[..n + 1] == batch;
      forall i: nat | i < n ensures front[i] == batch[i] && front[..i + 1] == batch[..i + 1] {
      }
      HellosAreAll(codec, front);
    }
  }

  // --- What counts -------------------------------------------------------------------

  /** The snapshot has become the device's last one. */
  predicate Becomes(before: seq<Device>, after: seq<Device>, snapshot: Message)
    requires snapshot.DeviceSnapshot? && |after| == |before|
  {
    exists i :: 0 <= i < |before| && before[i].deviceId == snapshot.deviceId
      && before[i].lastSequence != after[i].lastSequence == Some(snapshot.sequence)
  }

  /** A datagram counts as accepted exactly when it is a hello, or a snapshot that has become its device's last one. */
  lemma CountsExactly(codec: Codec, devices: seq<Device>, d: Datagram)
    requires RegistryOk(devices)
    ensures var e, m := Dispatch(codec, devices, d), MessageIn(codec, d);
      && (!IsHello(codec, d) ==> |e.devices| == |devices|)
      && (e.accepted <==>
            IsHello(codec, d) || (m.Some? && m.value.DeviceSnapshot? && Becomes(devices, e.devices, m.value)))
      && (!e.accepted ==> e.devices == devices)
  {
    hide DecodeMessage, RegistryOk, AfterHello;
    var m := MessageIn(codec, d);
    if m.Some? && m.value.DeviceSnapshot? {
      SnapshotBecomes(devices, m.value, d.from, d.now);
    }
  }

  lemma SnapshotBecomes(devices: seq<Device>, snapshot: Message, from: Endpoint, now: nat)
    requires snapshot.DeviceSnapshot?
    ensures |AfterSnapshot(devices, snapshot, from, now)| == |devices|
    ensures Accepts(devices, snapshot, from) <==>
      Becomes(devices, AfterSnapshot(devices, snapshot, from, now), snapshot)
  {
    var i := Find(devices, snapshot.deviceId);
    var after := AfterSnapshot(devices, snapshot, from, now);
    if Accepts(devices, snapshot, from) {
      assert devices[i].lastSequence != after[i].lastSequence == Some(snapshot.sequence);
    }
  }

  /** The datagrams of a batch that count. */
  ghost function Counted(codec: Codec, devices: seq<Device>, batch: seq<Datagram>): set<nat> {
    set i: nat | i < |batch| && Dispatch(codec, AfterFirst(codec, devices, batch, i), batch[i]).accepted
  }

  lemma OneMoreCounted(codec: Codec, devices: seq<Device>, batch: seq<Datagram>)
    requires batch != []
    ensures var n := |batch| - 1;
      var front := Counted(codec, devices, batch[..n]);
      && n !in front
      && Counted(codec, devices, batch)
         == front + if Dispatch(codec, DispatchAll(codec, devices, batch[..n]), batch[n]).accepted then {n} else {}
  {
    hide Dispatch, DispatchAll;
    var n := |batch| - 1;
    forall i: nat | i < n ensures batch[..n][i] == batch[i] && batch[..n][..i] == batch[..i] {
    }
  }

  /** What the receiver counts is their number. */
  lemma {:induction false} CountIsTheirNumber(codec: Codec, devices: seq<Device>, batch: seq<Datagram>)
    ensures AcceptedCount(codec, devices, batch) == |Counted(codec, devices, batch)|
  {
    hide Dispatch, DispatchAll, Counted;
    if batch == [] {
      NothingCounted(codec, devices);
    } else {
      CountIsTheirNumber(codec, devices, batch[..|batch| - 1]);
      OneMoreCounted(codec, devices, batch);
    }
  }

  lemma NothingCounted(codec: Codec, devices: seq<Device>)
    ensures Counted(codec, devices, []) == {}
  {
  }
}
