/** RemoteDeviceRegistry and UdpTelemetryReceiver as the objects they are, proved against DeviceRegistry. */
module RemoteRegistry {
  import opened Wrappers
  import opened CborFormat
  import opened TelemetryTypes
  import opened TelemetrySchema
  import opened TelemetryRoundTrip
  import opened DeviceRegistry

  /** The registry's file, as the next start will find it. */
  datatype File = Missing | Unreadable | Contents(bytes: seq<byte>)

  const PERSIST_FAILED := "Unable to persist remote device registry"
  const READ_FAILED := "Unable to read remote device registry"
  const CORRUPT := "Remote device registry is corrupt"

  class RemoteDeviceRegistry {
    const codec: Codec
    var devices: seq<Device>
    var diagnostic: string
    var file: File

    /** The file holds the current devices. */
    ghost predicate Synced()
      reads this
    {
      file == Contents(codec.write(RegistryValue(codec, devices)))
    }

    constructor (codec: Codec, file: File)
      ensures this.codec == codec && this.file == file
      ensures match file
        case Missing => devices == [] && diagnostic == ""
        case Unreadable => devices == [] && diagnostic == READ_FAILED
        case Contents(bytes) =>
          match ReadRegistry(codec, codec.parse(bytes))
          case None => devices == [] && diagnostic == CORRUPT
          case Some(read) => devices == read && diagnostic == ""
    {
      this.codec := codec;
      this.file := file;
      devices := [];
      diagnostic := "";
      new;
      Load();
    }

    method Load()
      requires devices == [] && diagnostic == ""
      modifies this
      ensures file == old(file)
      ensures match file
        case Missing => devices == [] && diagnostic == ""
        case Unreadable => devices == [] && diagnostic == READ_FAILED
        case Contents(bytes) =>
          match ReadRegistry(codec, codec.parse(bytes))
          case None => devices == [] && diagnostic == CORRUPT
          case Some(read) => devices == read && diagnostic == ""
    {
      hide ReadEntries, ReadDevice;
      match file
      case Missing =>
      case Unreadable =>
        diagnostic := READ_FAILED;
      case Contents(bytes) =>
        var root := codec.parse(bytes);
        if root.None? || !root.value.Map? {
          diagnostic := CORRUPT;
          return;
        }
        var version, raw := Value(root.value.fields, "version"), Value(root.value.fields, "devices");
        if version != Integer(1) || !raw.Array? || |raw.items| > MAXIMUM_DEVICES {
          diagnostic := CORRUPT;
          return;
        }
        var read := ParseEntries(raw.items, DeviceReader(codec), DeviceName);
        if read.None? {
          diagnostic := CORRUPT;
        } else {
          devices := read.value;
        }
    }

    /** Failing to write leaves the old file and a diagnostic; the devices stay as they are. */
    method Persist(writable: bool)
      modifies this`file, this`diagnostic
      ensures if writable then Synced() && diagnostic == old(diagnostic)
              else file == old(file) && diagnostic == PERSIST_FAILED
    {
      var entries := PrintAll(devices, DevicePrinter(codec));
      if writable {
        file := Contents(codec.write(
          Map(Build([Entry("devices", Some(Array(entries))), Entry("version", Some(Integer(1)))]))));
      } else {
        diagnostic := PERSIST_FAILED;
      }
    }

    method UpdateFreshness(now: nat)
      modifies this`devices
      ensures devices == Refreshed(old(devices), now)
      ensures old(Synced()) ==> Synced()
    {
      for i := 0 to |devices|
        invariant |devices| == |old(devices)|
        invariant forall k :: 0 <= k < |devices| ==>
          devices[k] == if k < i then Fresh(old(devices[k]), now) else old(devices[k])
      {
        if devices[i].lastSnapshotMs >= 0 {
          var age := now - devices[i].lastSnapshotMs;
          var next := Online;
          if age >= devices[i].interval * 10000 {
            next := Offline;
          } else if age >= devices[i].interval * 3000 {
            next := Stale;
          }
          if devices[i].state != next {
            devices := devices[i := devices[i].(state := next)];
          }
        }
      }
      assert devices == Refreshed(old(devices), now);
      RefreshStoresTheSame(codec, old(devices), now);
    }

    /** Returns the reason for a refusal, empty when the device is registered. */
    method RegisterHello(hello: Message, from: Endpoint, now: nat, writable: bool) returns (reason: string)
      requires hello.Hello?
      modifies this
      ensures HelloOutcome(reason, devices) == AfterHello(old(devices), hello, from, now)
      ensures writable && (old(Synced()) || reason == "") ==> Synced()
    {
      hide Fresh, RegistryValue;
      UpdateFreshness(now);
      for i := 0 to |devices|
        invariant devices == Refreshed(old(devices), now) && diagnostic == old(diagnostic) && file == old(file)
        invariant old(Synced()) ==> Synced()
        invariant forall k :: 0 <= k < i ==> devices[k].deviceId != hello.deviceId
      {
        if devices[i].deviceId == hello.deviceId {
          assert Find(devices, hello.deviceId) == i;
          if Contested(devices[i], hello, from) {
            return "duplicate_device_id";
          }
          devices := devices[i := Greeted(devices[i], hello, from)];
          Persist(writable);
          return "";
        }
      }
      assert Find(devices, hello.deviceId) == |devices|;
      if |devices| >= MAXIMUM_DEVICES {
        return "registry_full";
      }
      devices := devices + [NewDevice(hello, from)];
      Persist(writable);
      reason := "";
    }

    method AcceptSnapshot(snapshot: Message, from: Endpoint, now: nat, writable: bool) returns (accepted: bool)
      requires snapshot.DeviceSnapshot?
      modifies this
      ensures accepted == Accepts(old(devices), snapshot, from)
      ensures devices == AfterSnapshot(old(devices), snapshot, from, now)
      ensures writable && (old(Synced()) || accepted) ==> Synced()
    {
      hide RegistryValue;
      for i := 0 to |devices|
        invariant devices == old(devices) && file == old(file)
        invariant forall k :: 0 <= k < i ==> devices[k].deviceId != snapshot.deviceId
      {
        if devices[i].deviceId == snapshot.deviceId {
          assert Find(devices, snapshot.deviceId) == i;
          if !Acceptable(devices[i], snapshot, from) {
            return false;
          }
          devices := devices[i := Updated(devices[i], snapshot, now)];
          Persist(writable);
          return true;
        }
      }
      assert Find(devices, snapshot.deviceId) == |devices|;
      accepted := false;
    }

    method ForgetDevice(id: Uuid, writable: bool) returns (found: bool)
      modifies this
      ensures found <==> exists d :: d in old(devices) && d.deviceId == id
      ensures devices == Forgotten(old(devices), id)
      ensures writable && (old(Synced()) || found) ==> Synced()
    {
      hide RegistryValue;
      for i := 0 to |devices|
        invariant devices == old(devices) && file == old(file)
        invariant forall k :: 0 <= k < i ==> devices[k].deviceId != id
      {
        if devices[i].deviceId == id {
          assert Find(devices, id) == i && devices[i] in devices;
          devices := devices[..i] + devices[i + 1..];
          Persist(writable);
          return true;
        }
      }
      assert Find(devices, id) == |devices|;
      found := false;
    }
  }

  // --- The receiver ---------------------------------------------------------

  /** A datagram as the socket delivers it, with the time of its arrival. */
  datatype Datagram = Datagram(valid: bool, bytes: seq<byte>, from: Endpoint, now: nat)

  datatype Reply = Reply(message: Message, to: Endpoint)

  datatype Effect = Effect(devices: seq<Device>, accepted: bool, reply: Option<Reply>)

  /** What one datagram does: a hello is always answered, a snapshot counts only when the registry takes it. */
  function Dispatch(codec: Codec, devices: seq<Device>, d: Datagram): Effect {
    var dropped := Effect(devices, false, None);
    if !d.valid || |d.bytes| > MAXIMUM_DATAGRAM_SIZE then dropped
    else
      match DecodeMessage(codec, d.bytes)
      case Refused(_) => dropped
      case Decoded(m) =>
        if m.Hello? then
          var r := AfterHello(devices, m, d.from, d.now);
          Effect(r.devices, true, Some(Reply(Answer(m, r.reason), d.from)))
        else if m.DeviceSnapshot? && Accepts(devices, m, d.from) then
          Effect(AfterSnapshot(devices, m, d.from, d.now), true, None)
        else dropped
  }

  function Answer(hello: Message, reason: string): Message
    requires hello.Hello?
  {
    RegistrationResult(hello.deviceId, hello.instanceId, reason == "", reason)
  }

  function DispatchAll(codec: Codec, devices: seq<Device>, batch: seq<Datagram>): seq<Device> {
    if batch == [] then devices
    else Dispatch(codec, DispatchAll(codec, devices, batch[..|batch| - 1]), batch[|batch| - 1]).devices
  }

  function Replies(codec: Codec, devices: seq<Device>, batch: seq<Datagram>): seq<Reply> {
    if batch == [] then []
    else
      var front := batch[..|batch| - 1];
      var e := Dispatch(codec, DispatchAll(codec, devices, front), batch[|batch| - 1]);
      Replies(codec, devices, front) + if e.reply.Some? then [e.reply.value] else []
  }

  function AcceptedCount(codec: Codec, devices: seq<Device>, batch: seq<Datagram>): (n: nat)
    ensures n <= |batch|
  {
    if batch == [] then 0
    else
      var front := batch[..|batch| - 1];
      var e := Dispatch(codec, DispatchAll(codec, devices, front), batch[|batch| - 1]);
      AcceptedCount(codec, devices, front) + if e.accepted then 1 else 0
  }

  const BATCH_SIZE := 32

  class UdpTelemetryReceiver {
    const registry: RemoteDeviceRegistry
    var accepted: nat
    var dropped: nat

    constructor (registry: RemoteDeviceRegistry)
      ensures this.registry == registry && accepted == 0 && dropped == 0
    {
      this.registry := registry;
      accepted, dropped := 0, 0;
    }

    /** The body of the loop below. */
    method Process(d: Datagram, writable: bool) returns (reply: Option<Reply>)
      modifies this, registry
      ensures Effect(registry.devices, accepted == old(accepted) + 1, reply)
           == Dispatch(registry.codec, old(registry.devices), d)
      ensures (accepted == old(accepted) + 1 && dropped == old(dropped))
           || (accepted == old(accepted) && dropped == old(dropped) + 1)
    {
      hide DecodeMessage, AfterHello, AfterSnapshot, Accepts;
      reply := None;
      if !d.valid || |d.bytes| > MAXIMUM_DATAGRAM_SIZE {
        dropped := dropped + 1;
        return;
      }
      var decoded := DecodeMessage(registry.codec, d.bytes);
      if decoded.Refused? {
        dropped := dropped + 1;
        return;
      }
      if decoded.message.Hello? {
        var reason := registry.RegisterHello(decoded.message, d.from, d.now, writable);
        reply := Some(Reply(Answer(decoded.message, reason), d.from));
        accepted := accepted + 1;
        return;
      }
      if decoded.message.DeviceSnapshot? {
        var ok := registry.AcceptSnapshot(decoded.message, d.from, d.now, writable);
        if ok {
          accepted := accepted + 1;
          return;
        }
        RefusedChangesNothing(old(registry.devices), decoded.message, d.from, d.now);
      }
      dropped := dropped + 1;
    }

    /** At most a batch is processed; `more` asks for another call. Every processed datagram is counted once. */
    method ProcessPendingDatagrams(pending: seq<Datagram>, writable: bool)
      returns (processed: nat, sent: seq<Reply>, more: bool)
      modifies this, registry
      ensures processed == (if |pending| < BATCH_SIZE then |pending| else BATCH_SIZE)
      ensures more <==> processed < |pending|
      ensures registry.devices == DispatchAll(registry.codec, old(registry.devices), pending[..processed])
      ensures sent == Replies(registry.codec, old(registry.devices), pending[..processed])
      ensures accepted == old(accepted) + AcceptedCount(registry.codec, old(registry.devices), pending[..processed])
      ensures accepted + dropped == old(accepted) + old(dropped) + processed
    {
      hide Dispatch;
      processed, sent := 0, [];
      while processed < |pending| && processed < BATCH_SIZE
        invariant processed <= |pending| && processed <= BATCH_SIZE
        invariant registry.devices == DispatchAll(registry.codec, old(registry.devices), pending[..processed])
        invariant sent == Replies(registry.codec, old(registry.devices), pending[..processed])
        invariant accepted == old(accepted) + AcceptedCount(registry.codec, old(registry.devices), pending[..processed])
        invariant accepted + dropped == old(accepted) + old(dropped) + processed
      {
        assert pending[..processed + 1][..processed] == pending[..processed];
        var reply := Process(pending[processed], writable);
        if reply.Some? {
          sent := sent + [reply.value];
        }
        processed := processed + 1;
      }
      more := processed < |pending|;
    }
  }

  /** Whatever bytes arrive, in whatever order, the registry stays consistent. */
  lemma {:induction false} AnyBytesKeepTheRegistry(codec: Codec, devices: seq<Device>, batch: seq<Datagram>)
    requires RegistryOk(devices)
    ensures RegistryOk(DispatchAll(codec, devices, batch))
  {
    hide RegistryOk, DecodeMessage, AfterHello, AfterSnapshot, Accepts;
    if batch != [] {
      var front, d := batch[..|batch| - 1], batch[|batch| - 1];
      AnyBytesKeepTheRegistry(codec, devices, front);
      var before := DispatchAll(codec, devices, front);
      DatagramIsWellFormed(codec, d.bytes);
      var r := DecodeMessage(codec, d.bytes);
      if r.Decoded? && r.message.Hello? {
        HelloKeeps(before, r.message, d.from, d.now);
      } else if r.Decoded? && r.message.DeviceSnapshot? {
        SnapshotKeeps(before, r.message, d.from, d.now);
      }
    }
  }

  /** Every reply is a well-formed result: accepted exactly when there is no reason, and only two reasons occur. */
  lemma {:induction false} RepliesAreWellFormed(codec: Codec, devices: seq<Device>, batch: seq<Datagram>)
    ensures forall r :: r in Replies(codec, devices, batch) ==>
      && r.message.RegistrationResult? && MessageOk(r.message)
      && (r.message.accepted <==> r.message.reason == "")
      && r.message.reason in {"", "duplicate_device_id", "registry_full"}
  {
    hide DecodeMessage, Accepts, IsNull, AfterSnapshot, InfoOk, MetricsOk, ValidText, Utf8Size;
    if batch != [] {
      var front, d := batch[..|batch| - 1], batch[|batch| - 1];
      RepliesAreWellFormed(codec, devices, front);
      DatagramIsWellFormed(codec, d.bytes);
      ReasonsAreShort();
    }
  }

  lemma ReasonsAreShort()
    ensures Utf8Size("") <= 64 && Utf8Size("duplicate_device_id") <= 64 && Utf8Size("registry_full") <= 64
  {
    hide Utf8Size;
    ShortAscii("");
    ShortAscii("duplicate_device_id");
    ShortAscii("registry_full");
  }

  lemma {:induction false} ShortAscii(s: string)
    ensures (forall i :: 0 <= i < |s| ==> s[i] as int < 0x80) ==> Utf8Size(s) == |s|
  {
    if s != "" {
      ShortAscii(s[1..]);
    }
  }
}
