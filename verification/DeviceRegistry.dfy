/** The registry of remote devices (src/telemetry/remote_device_registry.cpp): operations as functions of the list. */
module DeviceRegistry {
  import opened Wrappers
  import opened Reals
  import opened CborFormat
  import opened TelemetryTypes
  import opened TelemetrySchema
  import opened TelemetryRoundTrip

  datatype State = Registered | Online | Stale | Offline

  datatype Address = NoAddress | Host(id: nat)

  datatype Endpoint = Endpoint(address: Address, port: nat)

  datatype Device = Device(
    deviceId: Uuid,
    displayName: string,
    interval: int32,
    info: SystemInfo,
    metrics: Option<SystemMetrics>,
    state: State,
    instanceId: Uuid,
    endpoint: Endpoint,
    lastSequence: Option<uint64>,
    lastSnapshotMs: int)

  const MAXIMUM_DEVICES := 64

  const NULL_ID: Uuid := [0, 0, 0, 0, 0, 0, 0, 0, 0, 0, 0, 0, 0, 0, 0, 0]

  // --- Specification of the operations --------------------------------------

  /** The first device with this id, or the length of the list. */
  function Find(devices: seq<Device>, id: Uuid): (i: nat)
    ensures i <= |devices|
    ensures i < |devices| ==> devices[i].deviceId == id
    ensures forall k :: 0 <= k < i ==> devices[k].deviceId != id
  {
    if devices == [] || devices[0].deviceId == id then 0 else 1 + Find(devices[1..], id)
  }

  /** Age in milliseconds decides, once there has been a snapshot. */
  function Fresh(d: Device, now: int): (r: Device)
    ensures r == d.(state := r.state)
  {
    if d.lastSnapshotMs < 0 then d
    else
      var age := now - d.lastSnapshotMs;
      d.(state := if age >= d.interval * 10000 then Offline else if age >= d.interval * 3000 then Stale else Online)
  }

  function Refreshed(devices: seq<Device>, now: int): (r: seq<Device>)
    ensures |r| == |devices|
    ensures forall i :: 0 <= i < |devices| ==> r[i] == Fresh(devices[i], now)
  {
    seq(|devices|, i requires 0 <= i < |devices| => Fresh(devices[i], now))
  }

  /** Another host may not take over an identity that is still in use. */
  predicate Contested(d: Device, hello: Message, from: Endpoint)
    requires hello.Hello?
  {
    && d.state != Offline && d.instanceId != hello.instanceId
    && d.endpoint.address != NoAddress && d.endpoint.address != from.address
  }

  /** A known device after its hello: a new instance starts a new epoch, the same one only moves. */
  function Greeted(d: Device, hello: Message, from: Endpoint): Device
    requires hello.Hello?
  {
    var known := d.(displayName := hello.displayName, interval := hello.interval, info := hello.info, endpoint := from);
    if d.instanceId == hello.instanceId then known
    else known.(instanceId := hello.instanceId, lastSequence := None, metrics := None, state := Registered,
                lastSnapshotMs := -1)
  }

  function NewDevice(hello: Message, from: Endpoint): Device
    requires hello.Hello?
  {
    Device(hello.deviceId, hello.displayName, hello.interval, hello.info, None, Registered, hello.instanceId, from,
           None, -1)
  }

  datatype HelloOutcome = HelloOutcome(reason: string, devices: seq<Device>)

  function AfterHello(devices: seq<Device>, hello: Message, from: Endpoint, now: int): HelloOutcome
    requires hello.Hello?
  {
    var current := Refreshed(devices, now);
    var i := Find(current, hello.deviceId);
    if i < |current| then
      if Contested(current[i], hello, from) then HelloOutcome("duplicate_device_id", current)
      else HelloOutcome("", current[i := Greeted(current[i], hello, from)])
    else if |current| >= MAXIMUM_DEVICES then HelloOutcome("registry_full", current)
    else HelloOutcome("", current + [NewDevice(hello, from)])
  }

  /** Only a strictly newer snapshot of the registered instance, from its endpoint and at its cadence, counts. */
  predicate Acceptable(d: Device, snapshot: Message, from: Endpoint)
    requires snapshot.DeviceSnapshot?
  {
    && d.instanceId == snapshot.instanceId && d.endpoint == from && d.interval == snapshot.interval
    && (d.lastSequence.Some? ==> snapshot.sequence > d.lastSequence.value)
  }

  function Updated(d: Device, snapshot: Message, now: nat): Device
    requires snapshot.DeviceSnapshot?
  {
    d.(lastSequence := Some(snapshot.sequence), info := snapshot.info, metrics := snapshot.metrics,
       lastSnapshotMs := now, state := Online)
  }

  predicate Accepts(devices: seq<Device>, snapshot: Message, from: Endpoint)
    requires snapshot.DeviceSnapshot?
  {
    var i := Find(devices, snapshot.deviceId);
    i < |devices| && Acceptable(devices[i], snapshot, from)
  }

  function AfterSnapshot(devices: seq<Device>, snapshot: Message, from: Endpoint, now: nat): seq<Device>
    requires snapshot.DeviceSnapshot?
  {
    var i := Find(devices, snapshot.deviceId);
    if Accepts(devices, snapshot, from) then devices[i := Updated(devices[i], snapshot, now)] else devices
  }

  lemma RefusedChangesNothing(devices: seq<Device>, snapshot: Message, from: Endpoint, now: nat)
    requires snapshot.DeviceSnapshot? && !Accepts(devices, snapshot, from)
    ensures AfterSnapshot(devices, snapshot, from, now) == devices
  {
  }

  function Forgotten(devices: seq<Device>, id: Uuid): seq<Device> {
    var i := Find(devices, id);
    if i < |devices| then devices[..i] + devices[i + 1..] else devices
  }

  // --- The invariant of the registry ----------------------------------------

  ghost predicate DeviceOk(d: Device) {
    && !IsNull(d.deviceId) && ValidText(d.displayName, 128) && 1 <= d.interval <= 5 && InfoOk(d.info)
    && (d.lastSequence.Some? <==> d.lastSnapshotMs >= 0)
    && (d.metrics.Some? ==> d.lastSequence.Some? && MetricsOk(d.metrics.value))
    && (d.state.Online? || d.state.Stale? ==> d.lastSequence.Some?)
    && (d.state.Registered? ==> d.lastSequence.None?)
  }

  ghost predicate RegistryOk(devices: seq<Device>) {
    && |devices| <= MAXIMUM_DEVICES
    && (forall i :: 0 <= i < |devices| ==> DeviceOk(devices[i]))
    && (forall i, j :: 0 <= i < j < |devices| ==> devices[i].deviceId != devices[j].deviceId)
  }

  lemma RefreshKeeps(devices: seq<Device>, now: int)
    requires RegistryOk(devices)
    ensures RegistryOk(Refreshed(devices, now))
  {
    hide InfoOk, MetricsOk, IsNull, ValidText;
  }

  lemma HelloKeeps(devices: seq<Device>, hello: Message, from: Endpoint, now: int)
    requires RegistryOk(devices) && hello.Hello? && MessageOk(hello)
    ensures RegistryOk(AfterHello(devices, hello, from, now).devices)
  {
    hide InfoOk, MetricsOk, IsNull, ValidText;
    RefreshKeeps(devices, now);
  }

  lemma SnapshotKeeps(devices: seq<Device>, snapshot: Message, from: Endpoint, now: nat)
    requires RegistryOk(devices) && snapshot.DeviceSnapshot? && MessageOk(snapshot)
    ensures RegistryOk(AfterSnapshot(devices, snapshot, from, now))
  {
    hide InfoOk, MetricsOk, IsNull, ValidText;
  }

  lemma ForgetKeeps(devices: seq<Device>, id: Uuid)
    requires RegistryOk(devices)
    ensures RegistryOk(Forgotten(devices, id))
    ensures forall d :: d in Forgotten(devices, id) <==> d in devices && d.deviceId != id
  {
    hide DeviceOk;
    var i := Find(devices, id);
    var r := Forgotten(devices, id);
    if i < |devices| {
      forall k | 0 <= k < |r| ensures r[k] == devices[if k < i then k else k + 1] {
      }
      forall d | d in devices && d.deviceId != id ensures d in r {
        var k :| 0 <= k < |devices| && devices[k] == d;
        assert r[if k < i then k else k - 1] == d;
      }
    }
  }

  lemma ForgottenAt(devices: seq<Device>, id: Uuid, k: nat)
    requires k < |Forgotten(devices, id)|
    ensures var p := if k < Find(devices, id) then k else k + 1;
      p < |devices| && Forgotten(devices, id)[k] == devices[p]
  {
    hide Find;
  }

  /** The others close up and keep their order. */
  lemma ForgetKeepsOrder(devices: seq<Device>, id: Uuid, j: nat, k: nat)
    requires j < k < |Forgotten(devices, id)|
    ensures exists p, q ::
      0 <= p < q < |devices| && devices[p] == Forgotten(devices, id)[j] && devices[q] == Forgotten(devices, id)[k]
  {
    hide Find, Forgotten;
    ForgottenAt(devices, id, j);
    ForgottenAt(devices, id, k);
  }

  // --- Who may use an identity, in what order, and how it ages -----------------

  lemma {:induction false} FoundAt(devices: seq<Device>, id: Uuid, i: nat)
    requires i <= |devices| && (i < |devices| ==> devices[i].deviceId == id)
    requires forall k :: 0 <= k < i ==> devices[k].deviceId != id
    ensures Find(devices, id) == i
  {
    if i > 0 {
      FoundAt(devices[1..], id, i - 1);
    }
  }

  lemma FindRefreshed(devices: seq<Device>, now: int, id: Uuid)
    ensures Find(Refreshed(devices, now), id) == Find(devices, id)
  {
    var r := Refreshed(devices, now);
    assert forall k :: 0 <= k < |r| ==> r[k].deviceId == devices[k].deviceId;
    FoundAt(devices, id, Find(r, id));
  }

  /**
   * A known identity goes to the greeting instance and endpoint exactly when it is that instance already, or the
   * device is offline, or the greeting comes from the same host; otherwise the device stays as it is.
   */
  lemma IdentityChangesHands(devices: seq<Device>, i: nat, hello: Message, from: Endpoint, now: int)
    requires RegistryOk(devices) && i < |devices| && hello.Hello? && devices[i].deviceId == hello.deviceId
    ensures var d, r := Fresh(devices[i], now), AfterHello(devices, hello, from, now);
      && |r.devices| == |devices|
      && (r.reason == "" <==> r.devices[i].instanceId == hello.instanceId)
      && (r.devices[i].instanceId == hello.instanceId <==>
            d.state == Offline || d.instanceId == hello.instanceId
            || d.endpoint.address == NoAddress || d.endpoint.address == from.address)
      && (r.reason == "" ==> r.devices[i].endpoint == from && r.devices[i].displayName == hello.displayName)
      && (r.reason != "" ==> r.devices[i] == d)
  {
    hide Fresh, DeviceOk;
    FoundAt(devices, hello.deviceId, i);
    FindRefreshed(devices, now, hello.deviceId);
  }

  /** The devices keep their places; a new one goes to the end, and is refused only when there are 64. */
  lemma OrderIsStable(devices: seq<Device>, hello: Message, from: Endpoint, now: int)
    requires RegistryOk(devices) && hello.Hello?
    ensures var r := AfterHello(devices, hello, from, now);
      && |devices| <= |r.devices| <= |devices| + 1
      && (forall k :: 0 <= k < |devices| ==> r.devices[k].deviceId == devices[k].deviceId)
      && (|r.devices| == |devices| + 1 ==> r.devices[|devices|].deviceId == hello.deviceId)
      && (r.reason == "registry_full" <==>
            |devices| == MAXIMUM_DEVICES && forall k :: 0 <= k < |devices| ==> devices[k].deviceId != hello.deviceId)
  {
    hide Fresh, DeviceOk;
    FindRefreshed(devices, now, hello.deviceId);
  }

  /**
   * An accepted hello shows its device as it describes itself, at its endpoint. Under another instance than before the
   * device starts over, registered and without data; under the same one only the description and the endpoint change.
   */
  lemma HelloIsShown(devices: seq<Device>, hello: Message, from: Endpoint, now: int)
    requires RegistryOk(devices) && hello.Hello? && AfterHello(devices, hello, from, now).reason == ""
    ensures var i, r := Find(devices, hello.deviceId), AfterHello(devices, hello, from, now).devices;
      && i < |r|
      && var d := r[i];
      && d.deviceId == hello.deviceId && d.instanceId == hello.instanceId && d.displayName == hello.displayName
      && d.interval == hello.interval && d.info == hello.info && d.endpoint == from
      && (if i < |devices| && devices[i].instanceId == hello.instanceId
          then d.lastSequence == devices[i].lastSequence && d.metrics == devices[i].metrics
            && d.lastSnapshotMs == devices[i].lastSnapshotMs && d.state == Fresh(devices[i], now).state
          else d.lastSequence == None && d.metrics == None && d.state == Registered)
      && forall k :: 0 <= k < |devices| && k != i ==> r[k] == Fresh(devices[k], now)
  {
    hide Fresh, DeviceOk;
    FindRefreshed(devices, now, hello.deviceId);
  }

  /** An accepted snapshot shows its device online with what it reports, and touches nothing else. */
  lemma SnapshotIsShown(devices: seq<Device>, snapshot: Message, from: Endpoint, now: nat)
    requires snapshot.DeviceSnapshot? && Accepts(devices, snapshot, from)
    ensures var i, r := Find(devices, snapshot.deviceId), AfterSnapshot(devices, snapshot, from, now);
      && |r| == |devices| && i < |r|
      && r[i].info == snapshot.info && r[i].metrics == snapshot.metrics && r[i].lastSequence == Some(snapshot.sequence)
      && r[i].state == Online && r[i].lastSnapshotMs == now
      && r[i].deviceId == snapshot.deviceId && r[i].instanceId == snapshot.instanceId && r[i].endpoint == from
      && r[i].displayName == devices[i].displayName && r[i].interval == snapshot.interval
      && forall k :: 0 <= k < |devices| && k != i ==> r[k] == devices[k]
  {
  }

  /** After an accepted snapshot the state is a matter of its age in intervals: 3 make it stale, 10 offline. */
  lemma SnapshotAges(devices: seq<Device>, snapshot: Message, from: Endpoint, arrived: nat, now: nat)
    requires RegistryOk(devices) && snapshot.DeviceSnapshot? && Accepts(devices, snapshot, from)
    ensures var later := Refreshed(AfterSnapshot(devices, snapshot, from, arrived), now);
      var d := later[Find(devices, snapshot.deviceId)];
      var age := now - arrived;
      && d.metrics == snapshot.metrics && d.lastSequence == Some(snapshot.sequence)
      && (d.state == Online <==> age < 3 * snapshot.interval * 1000)
      && (d.state == Stale <==> 3 * snapshot.interval * 1000 <= age < 10 * snapshot.interval * 1000)
      && (d.state == Offline <==> age >= 10 * snapshot.interval * 1000)
  {
    hide InfoOk, MetricsOk, IsNull, ValidText;
    assert DeviceOk(devices[Find(devices, snapshot.deviceId)]);
  }

  // --- DeviceModel: nothing wraps -------------------------------------------

  /** `used` on unsigned 64-bit integers: the subtraction wraps around when more is available than there is. */
  function Used(total: Option<uint64>, available: Option<uint64>): Option<uint64> {
    if total.Some? && available.Some?
    then Some((total.value - available.value + TWO_TO_THE_64) % TWO_TO_THE_64)
    else None
  }

  /** `ratio`, in exact arithmetic. */
  function Ratio(total: Option<uint64>, available: Option<uint64>): Option<real> {
    if total.Some? && available.Some? && total.value > 0
    then Some(Used(total, available).value as real / total.value as real)
    else None
  }

  ghost predicate Sane(total: Option<uint64>, available: Option<uint64>) {
    && (total.Some? && available.Some? ==> Used(total, available) == Some(total.value - available.value))
    && (Ratio(total, available).Some? ==> 0.0 <= Ratio(total, available).value <= 1.0)
  }

  lemma PartsAreSane(total: Option<uint64>, available: Option<uint64>)
    ensures PartOk(total, available) <==> Sane(total, available)
  {
    if total.Some? && available.Some? && PartOk(total, available) {
      var used := total.value - available.value;
      assert (used + TWO_TO_THE_64) % TWO_TO_THE_64 == used;
      if total.value > 0 {
        QuotientBounds(used as real, total.value as real);
      }
    }
  }

  /** What is used and what is available make up the total, and so do their shares of it. */
  lemma UsedIsTheRest(total: Option<uint64>, available: Option<uint64>)
    requires total.Some? && available.Some? && available.value <= total.value
    ensures Used(total, available).value + available.value == total.value
    ensures total.value > 0 ==>
      Ratio(total, available).value + available.value as real / total.value as real == 1.0
    ensures total.value == 0 ==> Ratio(total, available) == None
  {
    var t, a := total.value, available.value;
    assert (t - a + TWO_TO_THE_64) % TWO_TO_THE_64 == t - a;
    if t > 0 {
      SharesAddUp((t - a) as real, a as real, t as real);
    }
  }

  lemma SharesAddUp(a: real, b: real, c: real)
    requires c > 0.0 && a + b == c
    ensures a / c + b / c == 1.0
  {
  }

  /** For every device of a reachable registry the model shows true differences and ratios between 0 and 1. */
  lemma RemoteUsageNeverWraps(devices: seq<Device>, i: nat)
    requires RegistryOk(devices) && i < |devices| && devices[i].metrics.Some?
    ensures var m := devices[i].metrics.value;
      && Sane(m.memory.total, m.memory.available)
      && Sane(m.memory.swapTotal, m.memory.swapAvailable)
      && forall v :: v in m.volumes ==> Sane(v.total, v.available)
  {
    hide InfoOk, NamedOk, Sane;
    var m := devices[i].metrics.value;
    PartsAreSane(m.memory.total, m.memory.available);
    PartsAreSane(m.memory.swapTotal, m.memory.swapAvailable);
    forall v | v in m.volumes ensures Sane(v.total, v.available) {
      PartsAreSane(v.total, v.available);
    }
  }

  // --- Storage --------------------------------------------------------------

  function DeviceToMap(codec: Codec, d: Device): Fields {
    Build(DeviceEntries(codec, d))
  }

  function DeviceEntries(codec: Codec, d: Device): seq<Entry> {
    [Entry("device_id", Some(ByteArray(d.deviceId))), Entry("display_name", Some(Text(d.displayName))),
     Entry("interval_s", Some(Integer(d.interval))),
     Entry("system_info", Some(ByteArray(EncodeSystemInfo(codec, d.info))))]
  }

  function DevicePrinter(codec: Codec): Device -> Fields {
    d => DeviceToMap(codec, d)
  }

  function RegistryEntries(codec: Codec, devices: seq<Device>): seq<Entry> {
    [Entry("devices", Some(Array(Printed(devices, DevicePrinter(codec))))), Entry("version", Some(Integer(1)))]
  }

  function RegistryValue(codec: Codec, devices: seq<Device>): Cbor {
    Map(Build(RegistryEntries(codec, devices)))
  }

  function ReadDevice(codec: Codec, m: Fields): Option<Device> {
    var id, name := Value(m, "device_id"), Value(m, "display_name");
    var interval, infoBytes := Value(m, "interval_s"), Value(m, "system_info");
    if !id.ByteArray? || |id.bytes| != 16 || !name.Text? || !ValidText(name.text, 128)
       || !IsInterval(interval) || !infoBytes.ByteArray? then None
    else
      var info :- DecodeSystemInfo(codec, infoBytes.bytes);
      if IsNull(id.bytes) then None else Some(Loaded(id.bytes, name.text, interval.n, info))
  }

  /** A device as `load` makes it: nothing of its last session is left. */
  function Loaded(id: Uuid, name: string, interval: int32, info: SystemInfo): Device {
    Device(id, name, interval, info, None, Offline, NULL_ID, Endpoint(NoAddress, 0), None, -1)
  }

  function DeviceReader(codec: Codec): Fields -> Option<Device> {
    m => ReadDevice(codec, m)
  }

  function DeviceName(d: Device): Uuid {
    d.deviceId
  }

  /** The list read from a file's CBOR value, or None when the file is corrupt. */
  function ReadRegistry(codec: Codec, root: Option<Cbor>): Option<seq<Device>> {
    if root.None? || !root.value.Map? then None
    else
      var version, raw := Value(root.value.fields, "version"), Value(root.value.fields, "devices");
      if version != Integer(1) || !raw.Array? || |raw.items| > MAXIMUM_DEVICES then None
      else ReadEntries(raw.items, DeviceReader(codec), DeviceName)
  }

  /** The registry after a restart: the same devices in the same order, all offline. */
  function Restored(devices: seq<Device>): (r: seq<Device>)
    ensures |r| == |devices|
    ensures forall i :: 0 <= i < |devices| ==>
      var d := devices[i];
      && r[i].deviceId == d.deviceId && r[i].displayName == d.displayName && r[i].interval == d.interval
      && r[i].info == d.info && r[i].state == Offline
      && r[i].instanceId == NULL_ID && r[i].lastSequence == None && r[i].metrics == None && r[i].lastSnapshotMs < 0
  {
    seq(|devices|, i requires 0 <= i < |devices| =>
      Loaded(devices[i].deviceId, devices[i].displayName, devices[i].interval, devices[i].info))
  }

  lemma DeviceKeys(codec: Codec, d: Device)
    ensures DistinctKeys(DeviceEntries(codec, d))
  {
    hide EncodeSystemInfo;
    var e := DeviceEntries(codec, d);
    assert e[0].key == "device_id" && e[1].key == "display_name" && e[2].key == "interval_s";
    assert e[3].key == "system_info";
  }

  lemma DeviceBack(codec: Codec, d: Device)
    requires DeviceOk(d) && codec.Keeps(Map(InfoToMap(d.info)))
    ensures ReadDevice(codec, DeviceToMap(codec, d)) == Some(Loaded(d.deviceId, d.displayName, d.interval, d.info))
  {
    hide Build, ValidText, IsNull, InfoOk, MetricsOk, EncodeSystemInfo, DecodeSystemInfo, DistinctKeys;
    var e := DeviceEntries(codec, d);
    DeviceKeys(codec, d);
    InsertedValues(e);
    assert e[0].key == "device_id" && e[1].key == "display_name" && e[2].key == "interval_s";
    assert e[3].key == "system_info";
    SystemInfoRoundTrip(codec, d.info);
  }

  /** `load` accepts what `persist` wrote, for every reachable registry the codec can carry. */
  lemma PersistThenLoad(codec: Codec, devices: seq<Device>)
    requires RegistryOk(devices)
    requires codec.Keeps(RegistryValue(codec, devices))
    requires forall d :: d in devices ==> codec.Keeps(Map(InfoToMap(d.info)))
    ensures ReadRegistry(codec, codec.parse(codec.write(RegistryValue(codec, devices)))) == Some(Restored(devices))
    ensures RegistryOk(Restored(devices))
  {
    hide Build, DeviceOk, ReadEntries, ReadDevice, DeviceToMap, DeviceEntries;
    var e := RegistryEntries(codec, devices);
    assert e[0].key == "devices" && e[1].key == "version" && e[0].key[0] == 'd' && e[1].key[0] == 'v';
    InsertedValues(e);
    var items := Printed(devices, DevicePrinter(codec));
    var restored := Restored(devices);
    forall i | 0 <= i < |items| ensures items[i].Map? && DeviceReader(codec)(items[i].fields) == Some(restored[i]) {
      DeviceBack(codec, devices[i]);
    }
    ReadEntriesIff(items, DeviceReader(codec), DeviceName, restored);
    RestoredOk(devices);
  }

  lemma RestoredOk(devices: seq<Device>)
    requires RegistryOk(devices)
    ensures RegistryOk(Restored(devices))
  {
    hide InfoOk, MetricsOk, IsNull, ValidText;
  }

  lemma ReadDeviceOk(codec: Codec, m: Fields)
    ensures ReadDevice(codec, m).Some? ==>
      var d := ReadDevice(codec, m).value;
      DeviceOk(d) && d == Loaded(d.deviceId, d.displayName, d.interval, d.info)
  {
    hide ValidText, IsNull, InfoOk, MetricsOk, InfoFromMap;
    var bytes := Value(m, "system_info");
    if bytes.ByteArray? && codec.parse(bytes.bytes).Some? {
      var root := codec.parse(bytes.bytes).value;
      if InfoFromMap(root).Some? {
        ReadInfoOk(root);
      }
    }
  }

  /** Whatever is in the file: what `load` accepts is a consistent registry with every device offline. */
  lemma LoadedIsConsistent(codec: Codec, root: Option<Cbor>)
    ensures ReadRegistry(codec, root).Some? ==>
      var devices := ReadRegistry(codec, root).value;
      RegistryOk(devices) && devices == Restored(devices)
  {
    hide ReadEntries, ReadDevice, DeviceOk;
    var read := ReadRegistry(codec, root);
    if read.Some? {
      var items := Value(root.value.fields, "devices").items;
      ReadEntriesIff(items, DeviceReader(codec), DeviceName, read.value);
      forall i | 0 <= i < |items| ensures DeviceOk(read.value[i]) && read.value[i] == Restored(read.value)[i] {
        assert DeviceReader(codec)(items[i].fields) == Some(read.value[i]);
        ReadDeviceOk(codec, items[i].fields);
      }
    }
  }

  /** The map a device was read from: its identity as bytes, and its system information encoded on its own. */
  predicate StoredAs(codec: Codec, item: Cbor, d: Device) {
    && item.Map?
    && Value(item.fields, "device_id") == ByteArray(d.deviceId) && !IsNull(d.deviceId)
    && Value(item.fields, "display_name") == Text(d.displayName) && ValidText(d.displayName, 128)
    && Value(item.fields, "interval_s") == Integer(d.interval) && 1 <= d.interval <= 5
    && Value(item.fields, "system_info").ByteArray?
    && DecodeSystemInfo(codec, Value(item.fields, "system_info").bytes) == Some(d.info)
    && d == Loaded(d.deviceId, d.displayName, d.interval, d.info)
  }

  lemma DeviceExactly(codec: Codec, item: Cbor, d: Device)
    ensures item.Map? && ReadDevice(codec, item.fields) == Some(d) <==> StoredAs(codec, item, d)
  {
    hide ValidText, IsNull, InfoFromMap, DecodeSystemInfo;
  }

  /** A file is accepted exactly when it is of version 1 and a list of up to 64 good devices, no two of one identity. */
  lemma LoadsExactly(codec: Codec, root: Option<Cbor>, devices: seq<Device>)
    ensures ReadRegistry(codec, root) == Some(devices) <==>
      && root.Some? && root.value.Map?
      && var version, raw := Value(root.value.fields, "version"), Value(root.value.fields, "devices");
      && version == Integer(1) && raw.Array? && |raw.items| == |devices| <= 64
      && (forall i :: 0 <= i < |devices| ==> StoredAs(codec, raw.items[i], devices[i]))
      && forall i, j :: 0 <= i < j < |devices| ==> devices[i].deviceId != devices[j].deviceId
  {
    hide ReadEntries, ReadDevice, StoredAs, Loaded;
    if root.Some? && root.value.Map? && Value(root.value.fields, "devices").Array? {
      var items := Value(root.value.fields, "devices").items;
      ReadEntriesIff(items, DeviceReader(codec), DeviceName, devices);
      forall i | 0 <= i < |items| && i < |devices|
        ensures StoredAs(codec, items[i], devices[i]) <==>
                items[i].Map? && DeviceReader(codec)(items[i].fields) == Some(devices[i]) {
        DeviceExactly(codec, items[i], devices[i]);
      }
    }
  }

  /** Ageing does not change what is stored, so the file stays good between the operations that write it. */
  lemma RefreshStoresTheSame(codec: Codec, devices: seq<Device>, now: int)
    ensures RegistryValue(codec, Refreshed(devices, now)) == RegistryValue(codec, devices)
  {
    hide EncodeSystemInfo;
    var a, b := Printed(Refreshed(devices, now), DevicePrinter(codec)), Printed(devices, DevicePrinter(codec));
    forall i | 0 <= i < |a| ensures a[i] == b[i] {
      assert DeviceEntries(codec, Fresh(devices[i], now)) == DeviceEntries(codec, devices[i]);
    }
    assert a == b;
  }
}
