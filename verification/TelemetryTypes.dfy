/** What a remote device tells the dashboard (src/protocol), and when a message is well formed. */
module TelemetryTypes {
  import opened Wrappers
  import opened CborFormat
  import opened Ordering

  type uint32 = n: int | 0 <= n < 0x1_0000_0000

  type int32 = n: int | -0x8000_0000 <= n <= 0x7fff_ffff

  type int64 = n: int | -MAX_INTEGER - 1 <= n <= MAX_INTEGER

  const MAX_INTEGER := 0x7fff_ffff_ffff_ffff

  type Uuid = u: seq<byte> | |u| == 16 witness seq(16, i => 0)

  predicate IsNull(id: Uuid) {
    forall i :: 0 <= i < 16 ==> id[i] == 0
  }

  /** A C++ double: a number, or one of the infinities and NaNs. */
  datatype Double = Finite(value: real) | NotFinite

  // --- System information ---------------------------------------------------

  datatype SystemInfo = SystemInfo(
    host: Host, os: OperatingSystem, kernel: Kernel, hardware: Hardware, cpu: CpuInfo, memory: MemoryInfo)

  datatype Host = Host(hostName: Option<string>)

  datatype OperatingSystem = OperatingSystem(
    family: Option<string>, id: Option<string>, version: Option<string>, prettyName: Option<string>)

  datatype Kernel = Kernel(kind: Option<string>, version: Option<string>)

  datatype Hardware = Hardware(
    manufacturer: Option<string>, model: Option<string>, boardRevision: Option<string>,
    compatibleIds: Option<seq<string>>)

  datatype CpuInfo = CpuInfo(
    architecture: Option<string>, vendor: Option<string>, model: Option<string>,
    logicalCount: Option<uint32>, physicalCount: Option<uint32>)

  datatype MemoryInfo = MemoryInfo(totalBytes: Option<uint64>)

  predicate HasAnyValue(info: SystemInfo) {
    || info.host.hostName.Some?
    || info.os.family.Some? || info.os.id.Some? || info.os.version.Some? || info.os.prettyName.Some?
    || info.kernel.kind.Some? || info.kernel.version.Some?
    || info.hardware.manufacturer.Some? || info.hardware.model.Some? || info.hardware.boardRevision.Some?
    || info.hardware.compatibleIds.Some?
    || info.cpu.architecture.Some? || info.cpu.vendor.Some? || info.cpu.model.Some?
    || info.cpu.logicalCount.Some? || info.cpu.physicalCount.Some?
    || info.memory.totalBytes.Some?
  }

  // --- Metrics --------------------------------------------------------------

  datatype SystemMetrics = SystemMetrics(
    cpu: CpuMetrics, memory: MemoryMetrics, system: SystemLoad,
    volumes: seq<StorageVolume>, interfaces: seq<NetworkInterface>, gpus: seq<Gpu>)

  datatype CpuMetrics = CpuMetrics(
    usageRatio: Option<Double>, logicalCpus: seq<LogicalCpu>, temperature: Option<Double>)

  datatype LogicalCpu = LogicalCpu(name: string, usageRatio: Option<Double>, frequency: Option<uint64>)

  datatype MemoryMetrics = MemoryMetrics(
    total: Option<uint64>, available: Option<uint64>, swapTotal: Option<uint64>, swapAvailable: Option<uint64>)

  datatype SystemLoad = SystemLoad(
    uptime: Option<Double>, load1: Option<Double>, load5: Option<Double>, load15: Option<Double>)

  datatype StorageVolume = StorageVolume(
    mountPoint: string, deviceName: string, primary: bool, readOnly: bool,
    total: Option<uint64>, available: Option<uint64>)

  datatype NetworkInterface = NetworkInterface(
    name: string, received: Option<uint64>, sent: Option<uint64>,
    receiveRate: Option<Double>, sendRate: Option<Double>)

  datatype Gpu = Gpu(
    name: string, usageRatio: Option<Double>, memoryTotal: Option<uint64>, memoryUsed: Option<uint64>,
    coreClock: Option<uint64>, memoryClock: Option<uint64>, temperature: Option<Double>)

  // --- Messages -------------------------------------------------------------

  datatype Message =
    | Hello(deviceId: Uuid, instanceId: Uuid, displayName: string, interval: int32, info: SystemInfo)
    | RegistrationResult(deviceId: Uuid, instanceId: Uuid, accepted: bool, reason: string)
    | DeviceSnapshot(deviceId: Uuid, instanceId: Uuid, interval: int32, sequence: uint64, info: SystemInfo,
                     metrics: Option<SystemMetrics>)

  // --- Well-formedness ------------------------------------------------------

  /** The size of a string in UTF-8. */
  function Utf8Size(s: string): nat {
    if s == "" then 0
    else
      var c := s[0] as int;
      (if c < 0x80 then 1 else if c < 0x800 then 2 else if c < 0x1_0000 then 3 else 4) + Utf8Size(s[1..])
  }

  predicate ValidText(text: string, limit: nat) {
    text != "" && Utf8Size(text) <= limit
  }

  predicate TextOk(text: Option<string>) {
    text.Some? ==> ValidText(text.value, 256)
  }

  predicate IntegerOk(n: Option<uint64>) {
    n.Some? ==> n.value <= MAX_INTEGER
  }

  predicate NumberOk(x: Option<Double>) {
    x.Some? ==> x.value.Finite?
  }

  predicate RatioOk(x: Option<Double>) {
    x.Some? ==> x.value.Finite? && 0.0 <= x.value.value <= 1.0
  }

  /** Nothing can be more available, or more used, than there is in total. */
  predicate PartOk(total: Option<uint64>, part: Option<uint64>) {
    total.Some? && part.Some? ==> part.value <= total.value
  }

  ghost predicate IdsOk(ids: seq<string>) {
    |ids| <= 32 && AllDifferent(ids) && forall id :: id in ids ==> ValidText(id, 256)
  }

  ghost predicate InfoOk(info: SystemInfo) {
    && HasAnyValue(info)
    && TextOk(info.host.hostName)
    && TextOk(info.os.family) && TextOk(info.os.id) && TextOk(info.os.version) && TextOk(info.os.prettyName)
    && TextOk(info.kernel.kind) && TextOk(info.kernel.version)
    && TextOk(info.hardware.manufacturer) && TextOk(info.hardware.model) && TextOk(info.hardware.boardRevision)
    && (info.hardware.compatibleIds.Some? ==> IdsOk(info.hardware.compatibleIds.value))
    && TextOk(info.cpu.architecture) && TextOk(info.cpu.vendor) && TextOk(info.cpu.model)
    && (info.cpu.logicalCount.Some? ==> info.cpu.logicalCount.value <= 256)
    && IntegerOk(info.memory.totalBytes)
  }

  predicate LogicalCpuOk(c: LogicalCpu) {
    ValidText(c.name, 256) && RatioOk(c.usageRatio) && IntegerOk(c.frequency)
  }

  predicate VolumeOk(v: StorageVolume) {
    && ValidText(v.mountPoint, 256) && ValidText(v.deviceName, 256)
    && IntegerOk(v.total) && IntegerOk(v.available)
  }

  predicate InterfaceOk(n: NetworkInterface) {
    && ValidText(n.name, 256)
    && IntegerOk(n.received) && IntegerOk(n.sent) && NumberOk(n.receiveRate) && NumberOk(n.sendRate)
  }

  predicate GpuOk(g: Gpu) {
    && ValidText(g.name, 256) && RatioOk(g.usageRatio) && NumberOk(g.temperature)
    && IntegerOk(g.memoryTotal) && IntegerOk(g.memoryUsed) && IntegerOk(g.coreClock) && IntegerOk(g.memoryClock)
  }

  /** A list with at most `limit` entries, all acceptable and no two of the same name. */
  ghost predicate NamedOk<T>(list: seq<T>, limit: nat, ok: T -> bool, name: T -> string) {
    && |list| <= limit
    && (forall i :: 0 <= i < |list| ==> ok(list[i]))
    && (forall i, j :: 0 <= i < j < |list| ==> name(list[i]) != name(list[j]))
  }

  function CpuName(c: LogicalCpu): string { c.name }

  function VolumeName(v: StorageVolume): string { v.mountPoint }

  function InterfaceName(n: NetworkInterface): string { n.name }

  function GpuName(g: Gpu): string { g.name }

  ghost predicate MetricsOk(m: SystemMetrics) {
    && RatioOk(m.cpu.usageRatio) && NumberOk(m.cpu.temperature)
    && IntegerOk(m.memory.total) && IntegerOk(m.memory.available)
    && IntegerOk(m.memory.swapTotal) && IntegerOk(m.memory.swapAvailable)
    && NumberOk(m.system.uptime) && NumberOk(m.system.load1) && NumberOk(m.system.load5) && NumberOk(m.system.load15)
    && NamedOk(m.cpu.logicalCpus, 256, LogicalCpuOk, CpuName)
    && NamedOk(m.volumes, 64, VolumeOk, VolumeName)
    && NamedOk(m.interfaces, 64, InterfaceOk, InterfaceName)
    && NamedOk(m.gpus, 16, GpuOk, GpuName)
    && PartsOk(m)
  }

  predicate PartsOk(m: SystemMetrics) {
    && PartOk(m.memory.total, m.memory.available)
    && PartOk(m.memory.swapTotal, m.memory.swapAvailable)
    && (forall v :: v in m.volumes ==> PartOk(v.total, v.available))
    && (forall g :: g in m.gpus ==> PartOk(g.memoryTotal, g.memoryUsed))
  }

  ghost predicate MessageOk(m: Message) {
    && !IsNull(m.deviceId) && !IsNull(m.instanceId)
    && match m
       case Hello(_, _, name, interval, info) => ValidText(name, 128) && 1 <= interval <= 5 && InfoOk(info)
       case RegistrationResult(_, _, _, reason) => Utf8Size(reason) <= 64
       case DeviceSnapshot(_, _, interval, sequence, info, metrics) =>
         && 1 <= interval <= 5 && sequence <= MAX_INTEGER && InfoOk(info)
         && (metrics.Some? ==> MetricsOk(metrics.value))
  }
}
