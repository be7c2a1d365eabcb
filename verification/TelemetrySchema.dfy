/** The schema codec of src/protocol/device_snapshot.cpp: messages to and from CBOR values as Qt presents them. */
module TelemetrySchema {
  import opened Wrappers
  import opened CborFormat
  import opened TelemetryTypes

  // --- CBOR values ----------------------------------------------------------

  /** QCborValue. `Other` stands for every kind the schema never looks into. */
  datatype Cbor =
    | Undefined
    | Integer(n: int64)
    | Float(x: Double)
    | Text(text: string)
    | ByteArray(bytes: seq<byte>)
    | Bool(flag: bool)
    | Array(items: seq<Cbor>)
    | Map(fields: Fields)
    | Other

  type Fields = map<string, Cbor>

  /** QCborMap::value: an absent key reads as undefined. */
  function Value(m: Fields, key: string): Cbor {
    if key in m then m[key] else Undefined
  }

  // --- Building maps --------------------------------------------------------

  datatype Entry = Entry(key: string, value: Option<Cbor>)

  /** The inserts of one map in order; an absent optional inserts nothing. */
  function Build(entries: seq<Entry>): Fields {
    if entries == [] then map[]
    else
      var last := entries[|entries| - 1];
      var m := Build(entries[..|entries| - 1]);
      if last.value.Some? then m[last.key := last.value.value] else m
  }

  function TextEntry(key: string, text: Option<string>): Entry {
    Entry(key, if text.Some? then Some(Text(text.value)) else None)
  }

  function CountEntry(key: string, n: Option<uint32>): Entry {
    Entry(key, if n.Some? then Some(Integer(n.value)) else None)
  }

  /** An integer beyond the signed range is left out of the message. */
  function IntegerEntry(key: string, n: Option<uint64>): Entry {
    Entry(key, if n.Some? && n.value <= MAX_INTEGER then Some(Integer(n.value)) else None)
  }

  function NumberEntry(key: string, x: Option<Double>): Entry {
    Entry(key, if x.Some? then Some(Float(x.value)) else None)
  }

  /** A section is written only when something is in it. */
  function SectionEntry(key: string, m: Fields): (r: Entry)
    ensures r.key == key
  {
    Entry(key, if m == map[] then None else Some(Map(m)))
  }

  function ListEntry(key: string, items: seq<Cbor>): Entry {
    Entry(key, if items == [] then None else Some(Array(items)))
  }

  function Texts(s: seq<string>): (r: seq<Cbor>) {
    seq(|s|, i requires 0 <= i < |s| => Text(s[i]))
  }

  function Printed<T>(list: seq<T>, toMap: T -> Fields): (r: seq<Cbor>) {
    seq(|list|, i requires 0 <= i < |list| => Map(toMap(list[i])))
  }

  // --- Reading fields -------------------------------------------------------

  // Each reader returns None when the message must be rejected, and otherwise the optional value.

  function ReadText(m: Fields, key: string): Option<Option<string>> {
    match Value(m, key)
    case Undefined => Some(None)
    case Text(t) => if ValidText(t, 256) then Some(Some(t)) else None
    case _ => None
  }

  function ReadInteger(m: Fields, key: string): Option<Option<uint64>> {
    match Value(m, key)
    case Undefined => Some(None)
    case Integer(n) => if n >= 0 then Some(Some(n)) else None
    case _ => None
  }

  function ReadCount(m: Fields, key: string): Option<Option<uint32>> {
    var n :- ReadInteger(m, key);
    match n
    case None => Some(None)
    case Some(n) => if n < 0x1_0000_0000 then Some(Some(n)) else None
  }

  function ReadNumber(m: Fields, key: string): Option<Option<Double>> {
    match Value(m, key)
    case Undefined => Some(None)
    case Integer(n) => Some(Some(Finite(n as real)))
    case Float(x) => if x.Finite? then Some(Some(x)) else None
    case _ => None
  }

  function ReadRatio(m: Fields, key: string): Option<Option<Double>> {
    var x :- ReadNumber(m, key);
    if x.Some? && !(0.0 <= x.value.value <= 1.0) then None else Some(x)
  }

  function ReadSection(m: Fields, key: string): Option<Fields> {
    match Value(m, key)
    case Undefined => Some(map[])
    case Map(fields) => Some(fields)
    case _ => None
  }

  function ReadIds(m: Fields): Option<Option<seq<string>>> {
    match Value(m, "compatible_ids")
    case Undefined => Some(None)
    case Array(items) =>
      if |items| > 32 then None
      else
        var ids :- ReadTexts(items);
        Some(Some(ids))
    case _ => None
  }

  /** Non-empty texts of bounded size, no two alike. */
  function ReadTexts(items: seq<Cbor>): Option<seq<string>> {
    if items == [] then Some([])
    else
      var last := items[|items| - 1];
      var ids :- ReadTexts(items[..|items| - 1]);
      if last.Text? && ValidText(last.text, 256) && last.text !in ids then Some(ids + [last.text]) else None
  }

  /** A list of maps, each of which `parse` accepts, no two of the same name. */
  function ReadNamed<T>(raw: Cbor, limit: nat, parse: Fields -> Option<T>, name: T -> string): Option<seq<T>> {
    match raw
    case Undefined => Some([])
    case Array(items) => if |items| > limit then None else ReadEntries(items, parse, name)
    case _ => None
  }

  function ReadEntries<T, K(==)>(items: seq<Cbor>, parse: Fields -> Option<T>, name: T -> K): Option<seq<T>> {
    if items == [] then Some([])
    else
      var last := items[|items| - 1];
      var list :- ReadEntries(items[..|items| - 1], parse, name);
      if !last.Map? then None
      else
        var entry :- parse(last.fields);
        if exists i :: 0 <= i < |list| && name(list[i]) == name(entry) then None else Some(list + [entry])
  }

  // --- System information ---------------------------------------------------

  function HostEntries(h: Host): seq<Entry> {
    [TextEntry("host_name", h.hostName)]
  }

  function OsEntries(os: OperatingSystem): seq<Entry> {
    [TextEntry("os_family", os.family), TextEntry("os_id", os.id),
     TextEntry("os_version", os.version), TextEntry("os_pretty_name", os.prettyName)]
  }

  function KernelEntries(k: Kernel): seq<Entry> {
    [TextEntry("kernel_type", k.kind), TextEntry("kernel_version", k.version)]
  }

  function HardwareEntries(h: Hardware): seq<Entry> {
    [TextEntry("manufacturer", h.manufacturer), TextEntry("model", h.model),
     TextEntry("board_revision", h.boardRevision),
     Entry("compatible_ids", if h.compatibleIds.Some? then Some(Array(Texts(h.compatibleIds.value))) else None)]
  }

  function CpuEntries(c: CpuInfo): seq<Entry> {
    [TextEntry("architecture", c.architecture), TextEntry("vendor", c.vendor), TextEntry("model", c.model),
     CountEntry("logical_cpu_count", c.logicalCount), CountEntry("physical_core_count", c.physicalCount)]
  }

  function MemoryEntries(m: MemoryInfo): seq<Entry> {
    [IntegerEntry("total_bytes", m.totalBytes)]
  }

  function InfoEntries(info: SystemInfo): seq<Entry> {
    [SectionEntry("host", Build(HostEntries(info.host))),
     SectionEntry("os", Build(OsEntries(info.os))),
     SectionEntry("kernel", Build(KernelEntries(info.kernel))),
     SectionEntry("hardware", Build(HardwareEntries(info.hardware))),
     SectionEntry("cpu", Build(CpuEntries(info.cpu))),
     SectionEntry("memory", Build(MemoryEntries(info.memory)))]
  }

  function InfoToMap(info: SystemInfo): Fields {
    Build(InfoEntries(info))
  }

  function ReadOs(m: Fields): Option<OperatingSystem> {
    var family :- ReadText(m, "os_family");
    var id :- ReadText(m, "os_id");
    var version :- ReadText(m, "os_version");
    var prettyName :- ReadText(m, "os_pretty_name");
    Some(OperatingSystem(family, id, version, prettyName))
  }

  function ReadKernel(m: Fields): Option<Kernel> {
    var kind :- ReadText(m, "kernel_type");
    var version :- ReadText(m, "kernel_version");
    Some(Kernel(kind, version))
  }

  function ReadHardware(m: Fields): Option<Hardware> {
    var manufacturer :- ReadText(m, "manufacturer");
    var model :- ReadText(m, "model");
    var boardRevision :- ReadText(m, "board_revision");
    var ids :- ReadIds(m);
    Some(Hardware(manufacturer, model, boardRevision, ids))
  }

  function ReadCpu(m: Fields): Option<CpuInfo> {
    var architecture :- ReadText(m, "architecture");
    var vendor :- ReadText(m, "vendor");
    var model :- ReadText(m, "model");
    var logicalCount :- ReadCount(m, "logical_cpu_count");
    var physicalCount :- ReadCount(m, "physical_core_count");
    if logicalCount.Some? && logicalCount.value > 256 then None
    else Some(CpuInfo(architecture, vendor, model, logicalCount, physicalCount))
  }

  function InfoFromMap(value: Cbor): Option<SystemInfo> {
    if !value.Map? then None
    else
      var host :- ReadSection(value.fields, "host");
      var os :- ReadSection(value.fields, "os");
      var kernel :- ReadSection(value.fields, "kernel");
      var hardware :- ReadSection(value.fields, "hardware");
      var cpu :- ReadSection(value.fields, "cpu");
      var memory :- ReadSection(value.fields, "memory");
      var hostName :- ReadText(host, "host_name");
      var os' :- ReadOs(os);
      var kernel' :- ReadKernel(kernel);
      var hardware' :- ReadHardware(hardware);
      var cpu' :- ReadCpu(cpu);
      var totalBytes :- ReadInteger(memory, "total_bytes");
      var info := SystemInfo(Host(hostName), os', kernel', hardware', cpu', MemoryInfo(totalBytes));
      if HasAnyValue(info) then Some(info) else None
  }

  // --- Metrics --------------------------------------------------------------

  function LogicalCpuEntries(c: LogicalCpu): seq<Entry> {
    [Entry("name", Some(Text(c.name))), NumberEntry("usage_ratio", c.usageRatio),
     IntegerEntry("frequency_hz", c.frequency)]
  }

  function LogicalCpuToMap(c: LogicalCpu): Fields {
    Build(LogicalCpuEntries(c))
  }

  function CpuMetricsEntries(c: CpuMetrics): seq<Entry> {
    [NumberEntry("usage_ratio", c.usageRatio), NumberEntry("temperature_celsius", c.temperature),
     ListEntry("logical_cpus", Printed(c.logicalCpus, LogicalCpuToMap))]
  }

  function MemoryMetricsEntries(m: MemoryMetrics): seq<Entry> {
    [IntegerEntry("total_bytes", m.total), IntegerEntry("available_bytes", m.available),
     IntegerEntry("swap_total_bytes", m.swapTotal), IntegerEntry("swap_available_bytes", m.swapAvailable)]
  }

  function SystemLoadEntries(s: SystemLoad): seq<Entry> {
    [NumberEntry("uptime_seconds", s.uptime), NumberEntry("load_average_1m", s.load1),
     NumberEntry("load_average_5m", s.load5), NumberEntry("load_average_15m", s.load15)]
  }

  function VolumeEntries(v: StorageVolume): seq<Entry> {
    [Entry("mount_point", Some(Text(v.mountPoint))), Entry("device_name", Some(Text(v.deviceName))),
     Entry("primary", Some(Bool(v.primary))), Entry("read_only", Some(Bool(v.readOnly))),
     IntegerEntry("total_bytes", v.total), IntegerEntry("available_bytes", v.available)]
  }

  function VolumeToMap(v: StorageVolume): Fields {
    Build(VolumeEntries(v))
  }

  function InterfaceEntries(n: NetworkInterface): seq<Entry> {
    [Entry("name", Some(Text(n.name))), IntegerEntry("rx_bytes", n.received), IntegerEntry("tx_bytes", n.sent),
     NumberEntry("rx_bytes_per_second", n.receiveRate), NumberEntry("tx_bytes_per_second", n.sendRate)]
  }

  function InterfaceToMap(n: NetworkInterface): Fields {
    Build(InterfaceEntries(n))
  }

  function GpuEntries(g: Gpu): seq<Entry> {
    [Entry("name", Some(Text(g.name))), NumberEntry("usage_ratio", g.usageRatio),
     IntegerEntry("memory_total_bytes", g.memoryTotal), IntegerEntry("memory_used_bytes", g.memoryUsed),
     IntegerEntry("core_clock_hz", g.coreClock), IntegerEntry("memory_clock_hz", g.memoryClock),
     NumberEntry("temperature_celsius", g.temperature)]
  }

  function GpuToMap(g: Gpu): Fields {
    Build(GpuEntries(g))
  }

  function MetricsEntries(m: SystemMetrics): seq<Entry> {
    [SectionEntry("cpu", Build(CpuMetricsEntries(m.cpu))),
     SectionEntry("memory", Build(MemoryMetricsEntries(m.memory))),
     SectionEntry("system", Build(SystemLoadEntries(m.system))),
     ListEntry("storage_volumes", Printed(m.volumes, VolumeToMap)),
     ListEntry("network_interfaces", Printed(m.interfaces, InterfaceToMap)),
     ListEntry("gpus", Printed(m.gpus, GpuToMap))]
  }

  function MetricsToMap(m: SystemMetrics): Fields {
    Build(MetricsEntries(m))
  }

  function ReadName(m: Fields, key: string): Option<string> {
    match Value(m, key)
    case Text(t) => if ValidText(t, 256) then Some(t) else None
    case _ => None
  }

  function ReadBool(m: Fields, key: string): Option<bool> {
    match Value(m, key)
    case Bool(b) => Some(b)
    case _ => None
  }

  function ReadLogicalCpu(m: Fields): Option<LogicalCpu> {
    var name :- ReadName(m, "name");
    var usageRatio :- ReadRatio(m, "usage_ratio");
    var frequency :- ReadInteger(m, "frequency_hz");
    Some(LogicalCpu(name, usageRatio, frequency))
  }

  function ReadVolume(m: Fields): Option<StorageVolume> {
    var mountPoint :- ReadName(m, "mount_point");
    var deviceName :- ReadName(m, "device_name");
    var primary :- ReadBool(m, "primary");
    var readOnly :- ReadBool(m, "read_only");
    var total :- ReadInteger(m, "total_bytes");
    var available :- ReadInteger(m, "available_bytes");
    Some(StorageVolume(mountPoint, deviceName, primary, readOnly, total, available))
  }

  function ReadInterface(m: Fields): Option<NetworkInterface> {
    var name :- ReadName(m, "name");
    var received :- ReadInteger(m, "rx_bytes");
    var sent :- ReadInteger(m, "tx_bytes");
    var receiveRate :- ReadNumber(m, "rx_bytes_per_second");
    var sendRate :- ReadNumber(m, "tx_bytes_per_second");
    Some(NetworkInterface(name, received, sent, receiveRate, sendRate))
  }

  function ReadGpu(m: Fields): Option<Gpu> {
    var name :- ReadName(m, "name");
    var usageRatio :- ReadRatio(m, "usage_ratio");
    var memoryTotal :- ReadInteger(m, "memory_total_bytes");
    var memoryUsed :- ReadInteger(m, "memory_used_bytes");
    var coreClock :- ReadInteger(m, "core_clock_hz");
    var memoryClock :- ReadInteger(m, "memory_clock_hz");
    var temperature :- ReadNumber(m, "temperature_celsius");
    Some(Gpu(name, usageRatio, memoryTotal, memoryUsed, coreClock, memoryClock, temperature))
  }

  function ReadCpuMetrics(m: Fields): Option<CpuMetrics> {
    var usageRatio :- ReadRatio(m, "usage_ratio");
    var temperature :- ReadNumber(m, "temperature_celsius");
    var logicalCpus :- ReadNamed(Value(m, "logical_cpus"), 256, ReadLogicalCpu, CpuName);
    Some(CpuMetrics(usageRatio, logicalCpus, temperature))
  }

  function ReadMemoryMetrics(m: Fields): Option<MemoryMetrics> {
    var total :- ReadInteger(m, "total_bytes");
    var available :- ReadInteger(m, "available_bytes");
    var swapTotal :- ReadInteger(m, "swap_total_bytes");
    var swapAvailable :- ReadInteger(m, "swap_available_bytes");
    Some(MemoryMetrics(total, available, swapTotal, swapAvailable))
  }

  function ReadSystemLoad(m: Fields): Option<SystemLoad> {
    var uptime :- ReadNumber(m, "uptime_seconds");
    var load1 :- ReadNumber(m, "load_average_1m");
    var load5 :- ReadNumber(m, "load_average_5m");
    var load15 :- ReadNumber(m, "load_average_15m");
    Some(SystemLoad(uptime, load1, load5, load15))
  }

  function MetricsFromMap(value: Cbor): Option<SystemMetrics> {
    if !value.Map? then None
    else
      var m := value.fields;
      var cpu :- ReadSection(m, "cpu");
      var memory :- ReadSection(m, "memory");
      var system :- ReadSection(m, "system");
      var cpu' :- ReadCpuMetrics(cpu);
      var memory' :- ReadMemoryMetrics(memory);
      var system' :- ReadSystemLoad(system);
      var volumes :- ReadNamed(Value(m, "storage_volumes"), 64, ReadVolume, VolumeName);
      var interfaces :- ReadNamed(Value(m, "network_interfaces"), 64, ReadInterface, InterfaceName);
      var gpus :- ReadNamed(Value(m, "gpus"), 16, ReadGpu, GpuName);
      var metrics := SystemMetrics(cpu', memory', system', volumes, interfaces, gpus);
      if PartsOk(metrics) then Some(metrics) else None
  }

  // --- Messages -------------------------------------------------------------

  function Envelope(kind: string, m: Message): seq<Entry> {
    [Entry("device_id", Some(ByteArray(m.deviceId))), Entry("instance_id", Some(ByteArray(m.instanceId))),
     Entry("type", Some(Text(kind))), Entry("version", Some(Integer(1)))]
  }

  /** static_cast<qint64> of a quint64. */
  function Signed(n: uint64): int64 {
    if n <= MAX_INTEGER then n else n - TWO_TO_THE_64
  }

  function MessageEntries(m: Message): seq<Entry> {
    match m
    case Hello(_, _, name, interval, info) =>
      Envelope("hello", m) +
      [Entry("display_name", Some(Text(name))), Entry("interval_s", Some(Integer(interval))),
       Entry("system_info", Some(Map(InfoToMap(info))))]
    case RegistrationResult(_, _, accepted, reason) =>
      Envelope("registration_result", m) +
      [Entry("accepted", Some(Bool(accepted))), Entry("reason", if reason == "" then None else Some(Text(reason)))]
    case DeviceSnapshot(_, _, interval, sequence, info, metrics) =>
      Envelope("snapshot", m) +
      [Entry("interval_s", Some(Integer(interval))), Entry("sequence", Some(Integer(Signed(sequence)))),
       Entry("system_info", Some(Map(InfoToMap(info)))),
       Entry("metrics", if metrics.Some? then Some(Map(MetricsToMap(metrics.value))) else None)]
  }

  datatype DecodeResult = Decoded(message: Message) | Refused(error: string)

  function ReadId(m: Fields, key: string): Option<Uuid> {
    match Value(m, key)
    case ByteArray(b) => if |b| == 16 && !IsNull(b) then Some(b) else None
    case _ => None
  }

  predicate IsInterval(v: Cbor) {
    v.Integer? && 1 <= v.n <= 5
  }

  function DecodeValue(value: Cbor): DecodeResult {
    if !value.Map? then Refused("malformed_cbor")
    else
      var root := value.fields;
      var version := Value(root, "version");
      var kind := Value(root, "type");
      var device := ReadId(root, "device_id");
      var instance := ReadId(root, "instance_id");
      if !version.Integer? || version.n != 1 then Refused("unsupported_version")
      else if !kind.Text? || device.None? || instance.None? then Refused("invalid_identity")
      else if kind.text == "hello" then DecodeHello(root, device.value, instance.value)
      else if kind.text == "registration_result" then DecodeRegistrationResult(root, device.value, instance.value)
      else if kind.text == "snapshot" then DecodeSnapshot(root, device.value, instance.value)
      else Refused("unsupported_type")
  }

  function DecodeHello(root: Fields, device: Uuid, instance: Uuid): DecodeResult {
    var name, interval := Value(root, "display_name"), Value(root, "interval_s");
    var info := InfoFromMap(Value(root, "system_info"));
    if !name.Text? || !ValidText(name.text, 128) || !IsInterval(interval) || info.None?
    then Refused("invalid_registration")
    else Decoded(Hello(device, instance, name.text, interval.n, info.value))
  }

  function DecodeRegistrationResult(root: Fields, device: Uuid, instance: Uuid): DecodeResult {
    var accepted, reason := Value(root, "accepted"), Value(root, "reason");
    if !accepted.Bool? || (!reason.Undefined? && (!reason.Text? || Utf8Size(reason.text) > 64))
    then Refused("invalid_registration_result")
    else Decoded(RegistrationResult(device, instance, accepted.flag, if reason.Text? then reason.text else ""))
  }

  function DecodeSnapshot(root: Fields, device: Uuid, instance: Uuid): DecodeResult {
    var interval, sequence := Value(root, "interval_s"), Value(root, "sequence");
    var info := InfoFromMap(Value(root, "system_info"));
    var raw := Value(root, "metrics");
    if !IsInterval(interval) || !sequence.Integer? || sequence.n < 0 || info.None? then Refused("invalid_snapshot")
    else if raw.Undefined?
    then Decoded(DeviceSnapshot(device, instance, interval.n, sequence.n, info.value, None))
    else
      var metrics := MetricsFromMap(raw);
      if metrics.None? then Refused("invalid_metrics")
      else Decoded(DeviceSnapshot(device, instance, interval.n, sequence.n, info.value, metrics))
  }

  // --- Bytes ----------------------------------------------------------------

  /** Qt's CBOR codec, which is not part of this model: it is a parameter wherever bytes are involved. */
  datatype Codec = Codec(write: Cbor -> seq<byte>, parse: seq<byte> -> Option<Cbor>) {
    ghost predicate Keeps(value: Cbor) {
      parse(write(value)) == Some(value)
    }
  }

  const MAXIMUM_DATAGRAM_SIZE: nat := 16 * 1024

  function MessageValue(m: Message): Cbor {
    Map(Build(MessageEntries(m)))
  }

  function EncodeMessage(codec: Codec, m: Message): seq<byte> {
    codec.write(MessageValue(m))
  }

  function DecodeMessage(codec: Codec, bytes: seq<byte>): DecodeResult {
    if bytes == [] || |bytes| > MAXIMUM_DATAGRAM_SIZE then Refused("invalid_size")
    else
      var value := codec.parse(bytes);
      if value.None? then Refused("malformed_cbor") else DecodeValue(value.value)
  }

  function EncodeSystemInfo(codec: Codec, info: SystemInfo): seq<byte> {
    codec.write(Map(InfoToMap(info)))
  }

  function DecodeSystemInfo(codec: Codec, bytes: seq<byte>): Option<SystemInfo> {
    var value :- codec.parse(bytes);
    InfoFromMap(value)
  }

  // --- The loops ------------------------------------------------------------

  /** The loop over compatible ids, with its list and its set of ids already seen. */
  method ParseIds(items: seq<Cbor>) returns (r: Option<seq<string>>)
    ensures r == ReadTexts(items)
  {
    var ids: seq<string> := [];
    var seen: set<string> := {};
    for i := 0 to |items|
      invariant ReadTexts(items[..i]) == Some(ids)
      invariant forall s :: s in seen <==> s in ids
    {
      var raw := items[i];
      assert items[..i + 1][..i] == items[..i];
      if !raw.Text? || !ValidText(raw.text, 256) || raw.text in seen {
        RejectedPrefix(items, i + 1);
        return None;
      }
      ids := ids + [raw.text];
      seen := seen + {raw.text};
    }
    assert items[..|items|] == items;
    r := Some(ids);
  }

  lemma {:induction false} RejectedPrefix(items: seq<Cbor>, n: nat)
    requires n <= |items| && ReadTexts(items[..n]).None?
    ensures ReadTexts(items).None?
    decreases |items|
  {
    if n < |items| {
      var front := items[..|items| - 1];
      assert front[..n] == items[..n];
      RejectedPrefix(front, n);
    } else {
      assert items[..n] == items;
    }
  }

  /** The lambda `named`, for any of the four kinds of entry. */
  method ParseNamed<T>(raw: Cbor, limit: nat, parse: Fields -> Option<T>, name: T -> string)
    returns (r: Option<seq<T>>)
    ensures r == ReadNamed(raw, limit, parse, name)
  {
    if raw.Undefined? {
      return Some([]);
    }
    if !raw.Array? || |raw.items| > limit {
      return None;
    }
    r := ParseEntries(raw.items, parse, name);
  }

  /** A loop over list entries that keeps the set of names already seen. */
  method ParseEntries<T, K(==, !new)>(items: seq<Cbor>, parse: Fields -> Option<T>, name: T -> K)
    returns (r: Option<seq<T>>)
    ensures r == ReadEntries(items, parse, name)
  {
    var list: seq<T> := [];
    var seen: set<K> := {};
    for i := 0 to |items|
      invariant ReadEntries(items[..i], parse, name) == Some(list)
      invariant Seen(list, seen, name)
    {
      assert items[..i + 1][..i] == items[..i];
      if !items[i].Map? {
        RejectedEntries(items, i + 1, parse, name);
        return None;
      }
      var entry := parse(items[i].fields);
      if entry.None? || name(entry.value) in seen {
        RejectedEntries(items, i + 1, parse, name);
        return None;
      }
      SeenOneMore(list, seen, entry.value, name);
      list := list + [entry.value];
      seen := seen + {name(entry.value)};
    }
    assert items[..|items|] == items;
    r := Some(list);
  }

  ghost predicate Seen<T, K(!new)>(list: seq<T>, seen: set<K>, name: T -> K) {
    forall s :: s in seen <==> exists k :: 0 <= k < |list| && name(list[k]) == s
  }

  lemma SeenOneMore<T, K(!new)>(list: seq<T>, seen: set<K>, entry: T, name: T -> K)
    requires Seen(list, seen, name)
    ensures Seen(list + [entry], seen + {name(entry)}, name)
  {
    var longer := list + [entry];
    assert longer[|list|] == entry;
    forall s | s in seen ensures exists k :: 0 <= k < |longer| && name(longer[k]) == s {
      var k :| 0 <= k < |list| && name(list[k]) == s;
      assert longer[k] == list[k];
    }
  }

  lemma {:induction false} RejectedEntries<T, K>(items: seq<Cbor>, n: nat, parse: Fields -> Option<T>, name: T -> K)
    requires n <= |items| && ReadEntries(items[..n], parse, name).None?
    ensures ReadEntries(items, parse, name).None?
    decreases |items|
  {
    if n < |items| {
      var front := items[..|items| - 1];
      assert front[..n] == items[..n];
      RejectedEntries(front, n, parse, name);
    } else {
      assert items[..n] == items;
    }
  }

  /** The loops that refuse a volume or a GPU with more available, or used, than there is. */
  method CheckParts(m: SystemMetrics) returns (ok: bool)
    ensures ok == PartsOk(m)
  {
    if !PartOk(m.memory.total, m.memory.available) || !PartOk(m.memory.swapTotal, m.memory.swapAvailable) {
      return false;
    }
    for i := 0 to |m.volumes|
      invariant forall k :: 0 <= k < i ==> PartOk(m.volumes[k].total, m.volumes[k].available)
    {
      if !PartOk(m.volumes[i].total, m.volumes[i].available) {
        return false;
      }
    }
    for i := 0 to |m.gpus|
      invariant forall k :: 0 <= k < i ==> PartOk(m.gpus[k].memoryTotal, m.gpus[k].memoryUsed)
    {
      if !PartOk(m.gpus[i].memoryTotal, m.gpus[i].memoryUsed) {
        return false;
      }
    }
    ok := true;
  }

  /** The loops that append one map per entry. */
  method PrintAll<T>(list: seq<T>, toMap: T -> Fields) returns (items: seq<Cbor>)
    ensures items == Printed(list, toMap)
  {
    items := [];
    for i := 0 to |list|
      invariant |items| == i
      invariant forall k :: 0 <= k < i ==> items[k] == Map(toMap(list[k]))
    {
      items := items + [Map(toMap(list[i]))];
    }
  }
}
