/** The wire format without reference to the parser: which CBOR values are which messages, field by field. */
module TelemetryWire {
  import opened Wrappers
  import opened CborFormat
  import opened TelemetryTypes
  import opened TelemetrySchema
  import opened TelemetryRoundTrip

  // --- What a field holds -----------------------------------------------------------

  predicate HoldsText(c: Cbor, text: Option<string>) {
    c == if text.Some? then Text(text.value) else Undefined
  }

  predicate HoldsTexts(c: Cbor, texts: Option<seq<string>>) {
    if texts.None? then c == Undefined
    else
      && c.Array? && |c.items| == |texts.value|
      && forall i :: 0 <= i < |c.items| ==> c.items[i] == Text(texts.value[i])
  }

  predicate HoldsInteger(c: Cbor, n: Option<uint64>) {
    if n.Some? then c.Integer? && c.n == n.value else c == Undefined
  }

  predicate HoldsCount(c: Cbor, n: Option<uint32>) {
    if n.Some? then c.Integer? && c.n == n.value else c == Undefined
  }

  /** A number may come as an integer. */
  predicate HoldsNumber(c: Cbor, x: Option<Double>) {
    if x.Some? then c == Float(x.value) || (c.Integer? && x.value == Finite(c.n as real)) else c == Undefined
  }

  /** A list holds these entries, each as a map; no list is an empty one. */
  ghost predicate HoldsList<T>(c: Cbor, list: seq<T>, holds: (Fields, T) -> bool) {
    if c == Undefined then list == []
    else
      && c.Array? && |c.items| == |list|
      && forall i :: 0 <= i < |list| ==> c.items[i].Map? && holds(c.items[i].fields, list[i])
  }

  /** A section may be missing, but not be anything else than a map. */
  predicate SectionOk(root: Fields, key: string) {
    Value(root, key) == Undefined || Value(root, key).Map?
  }

  function Section(root: Fields, key: string): Fields {
    if Value(root, key).Map? then Value(root, key).fields else map[]
  }

  lemma TextExactly(m: Fields, key: string, text: Option<string>)
    ensures ReadText(m, key) == Some(text) <==> HoldsText(Value(m, key), text) && TextOk(text)
  {
    hide ValidText;
  }

  lemma IntegerExactly(m: Fields, key: string, n: Option<uint64>)
    ensures ReadInteger(m, key) == Some(n) <==> HoldsInteger(Value(m, key), n) && IntegerOk(n)
  {
  }

  lemma CountExactly(m: Fields, key: string, n: Option<uint32>)
    ensures ReadCount(m, key) == Some(n) <==> HoldsCount(Value(m, key), n)
  {
  }

  lemma NumberExactly(m: Fields, key: string, x: Option<Double>)
    ensures ReadNumber(m, key) == Some(x) <==> HoldsNumber(Value(m, key), x) && NumberOk(x)
    ensures ReadRatio(m, key) == Some(x) <==> HoldsNumber(Value(m, key), x) && RatioOk(x)
  {
  }

  lemma SectionExactly(root: Fields, key: string)
    ensures ReadSection(root, key) == if SectionOk(root, key) then Some(Section(root, key)) else None
  {
  }

  lemma IdsExactly(m: Fields, ids: Option<seq<string>>)
    ensures ReadIds(m) == Some(ids) <==>
      HoldsTexts(Value(m, "compatible_ids"), ids) && (ids.Some? ==> IdsOk(ids.value))
  {
    hide ReadTexts, ValidText;
    var c := Value(m, "compatible_ids");
    if c.Array? && ids.Some? {
      ReadTextsIff(c.items, ids.value);
    }
  }

  lemma ListExactly<T(!new)>(c: Cbor, limit: nat, parse: Fields -> Option<T>, name: T -> string, list: seq<T>,
                             holds: (Fields, T) -> bool, ok: T -> bool)
    requires forall m, x :: parse(m) == Some(x) <==> holds(m, x) && ok(x)
    ensures ReadNamed(c, limit, parse, name) == Some(list) <==>
      HoldsList(c, list, holds) && NamedOk(list, limit, ok, name)
  {
    hide ReadEntries;
    if c.Array? {
      ReadEntriesIff(c.items, parse, name, list);
      if ReadEntries(c.items, parse, name) == Some(list) {
        forall i | 0 <= i < |list| ensures c.items[i].Map? && holds(c.items[i].fields, list[i]) && ok(list[i]) {
          assert parse(c.items[i].fields) == Some(list[i]);
        }
      }
    }
  }

  // --- System information --------------------------------------------------------------

  predicate OsHeld(m: Fields, os: OperatingSystem) {
    && HoldsText(Value(m, "os_family"), os.family) && HoldsText(Value(m, "os_id"), os.id)
    && HoldsText(Value(m, "os_version"), os.version) && HoldsText(Value(m, "os_pretty_name"), os.prettyName)
  }

  predicate KernelHeld(m: Fields, k: Kernel) {
    HoldsText(Value(m, "kernel_type"), k.kind) && HoldsText(Value(m, "kernel_version"), k.version)
  }

  predicate HardwareHeld(m: Fields, h: Hardware) {
    && HoldsText(Value(m, "manufacturer"), h.manufacturer) && HoldsText(Value(m, "model"), h.model)
    && HoldsText(Value(m, "board_revision"), h.boardRevision)
    && HoldsTexts(Value(m, "compatible_ids"), h.compatibleIds)
  }

  predicate CpuHeld(m: Fields, c: CpuInfo) {
    && HoldsText(Value(m, "architecture"), c.architecture) && HoldsText(Value(m, "vendor"), c.vendor)
    && HoldsText(Value(m, "model"), c.model)
    && HoldsCount(Value(m, "logical_cpu_count"), c.logicalCount)
    && HoldsCount(Value(m, "physical_core_count"), c.physicalCount)
  }

  predicate InfoSectionsOk(root: Fields) {
    && SectionOk(root, "host") && SectionOk(root, "os") && SectionOk(root, "kernel")
    && SectionOk(root, "hardware") && SectionOk(root, "cpu") && SectionOk(root, "memory")
  }

  /** Six sections, each field under its name in its section. */
  predicate InfoHeld(value: Cbor, info: SystemInfo) {
    && value.Map?
    && var root := value.fields;
    && InfoSectionsOk(root)
    && HoldsText(Value(Section(root, "host"), "host_name"), info.host.hostName)
    && OsHeld(Section(root, "os"), info.os)
    && KernelHeld(Section(root, "kernel"), info.kernel)
    && HardwareHeld(Section(root, "hardware"), info.hardware)
    && CpuHeld(Section(root, "cpu"), info.cpu)
    && HoldsInteger(Value(Section(root, "memory"), "total_bytes"), info.memory.totalBytes)
  }

  lemma OsExactly(m: Fields, os: OperatingSystem)
    ensures ReadOs(m) == Some(os) <==>
      OsHeld(m, os) && TextOk(os.family) && TextOk(os.id) && TextOk(os.version) && TextOk(os.prettyName)
  {
    hide ReadText, HoldsText, TextOk;
    TextExactly(m, "os_family", os.family);
    TextExactly(m, "os_id", os.id);
    TextExactly(m, "os_version", os.version);
    TextExactly(m, "os_pretty_name", os.prettyName);
  }

  lemma KernelExactly(m: Fields, k: Kernel)
    ensures ReadKernel(m) == Some(k) <==> KernelHeld(m, k) && TextOk(k.kind) && TextOk(k.version)
  {
    hide ReadText, HoldsText, TextOk;
    TextExactly(m, "kernel_type", k.kind);
    TextExactly(m, "kernel_version", k.version);
  }

  lemma HardwareExactly(m: Fields, h: Hardware)
    ensures ReadHardware(m) == Some(h) <==>
      && HardwareHeld(m, h) && TextOk(h.manufacturer) && TextOk(h.model) && TextOk(h.boardRevision)
      && (h.compatibleIds.Some? ==> IdsOk(h.compatibleIds.value))
  {
    hide ReadText, HoldsText, TextOk, ReadIds, HoldsTexts, IdsOk;
    TextExactly(m, "manufacturer", h.manufacturer);
    TextExactly(m, "model", h.model);
    TextExactly(m, "board_revision", h.boardRevision);
    IdsExactly(m, h.compatibleIds);
  }

  lemma CpuExactly(m: Fields, c: CpuInfo)
    ensures ReadCpu(m) == Some(c) <==>
      && CpuHeld(m, c) && TextOk(c.architecture) && TextOk(c.vendor) && TextOk(c.model)
      && (c.logicalCount.Some? ==> c.logicalCount.value <= 256)
  {
    hide ReadText, ReadCount, HoldsText, HoldsCount, TextOk;
    TextExactly(m, "architecture", c.architecture);
    TextExactly(m, "vendor", c.vendor);
    TextExactly(m, "model", c.model);
    CountExactly(m, "logical_cpu_count", c.logicalCount);
    CountExactly(m, "physical_core_count", c.physicalCount);
  }

  /** System information is read from a value exactly when it is well formed and the value holds it. */
  lemma InfoExactly(value: Cbor, info: SystemInfo)
    ensures InfoFromMap(value) == Some(info) <==> InfoHeld(value, info) && InfoOk(info)
  {
    hide ReadText, ReadInteger, ReadOs, ReadKernel, ReadHardware, ReadCpu, ReadSection, SectionOk, Section, Value;
    hide HoldsText, HoldsInteger, OsHeld, KernelHeld, HardwareHeld, CpuHeld, HasAnyValue, TextOk, IdsOk, IntegerOk;
    if value.Map? {
      var root := value.fields;
      SectionExactly(root, "host");
      SectionExactly(root, "os");
      SectionExactly(root, "kernel");
      SectionExactly(root, "hardware");
      SectionExactly(root, "cpu");
      SectionExactly(root, "memory");
      TextExactly(Section(root, "host"), "host_name", info.host.hostName);
      OsExactly(Section(root, "os"), info.os);
      KernelExactly(Section(root, "kernel"), info.kernel);
      HardwareExactly(Section(root, "hardware"), info.hardware);
      CpuExactly(Section(root, "cpu"), info.cpu);
      IntegerExactly(Section(root, "memory"), "total_bytes", info.memory.totalBytes);
    }
  }

  // --- Metrics ---------------------------------------------------------------------------

  predicate LogicalCpuHeld(m: Fields, c: LogicalCpu) {
    && Value(m, "name") == Text(c.name) && HoldsNumber(Value(m, "usage_ratio"), c.usageRatio)
    && HoldsInteger(Value(m, "frequency_hz"), c.frequency)
  }

  predicate VolumeHeld(m: Fields, v: StorageVolume) {
    && Value(m, "mount_point") == Text(v.mountPoint) && Value(m, "device_name") == Text(v.deviceName)
    && Value(m, "primary") == Bool(v.primary) && Value(m, "read_only") == Bool(v.readOnly)
    && HoldsInteger(Value(m, "total_bytes"), v.total) && HoldsInteger(Value(m, "available_bytes"), v.available)
  }

  predicate InterfaceHeld(m: Fields, n: NetworkInterface) {
    && Value(m, "name") == Text(n.name)
    && HoldsInteger(Value(m, "rx_bytes"), n.received) && HoldsInteger(Value(m, "tx_bytes"), n.sent)
    && HoldsNumber(Value(m, "rx_bytes_per_second"), n.receiveRate)
    && HoldsNumber(Value(m, "tx_bytes_per_second"), n.sendRate)
  }

  predicate GpuHeld(m: Fields, g: Gpu) {
    && Value(m, "name") == Text(g.name) && HoldsNumber(Value(m, "usage_ratio"), g.usageRatio)
    && HoldsInteger(Value(m, "memory_total_bytes"), g.memoryTotal)
    && HoldsInteger(Value(m, "memory_used_bytes"), g.memoryUsed)
    && HoldsInteger(Value(m, "core_clock_hz"), g.coreClock)
    && HoldsInteger(Value(m, "memory_clock_hz"), g.memoryClock)
    && HoldsNumber(Value(m, "temperature_celsius"), g.temperature)
  }

  ghost predicate CpuMetricsHeld(m: Fields, c: CpuMetrics) {
    && HoldsNumber(Value(m, "usage_ratio"), c.usageRatio)
    && HoldsNumber(Value(m, "temperature_celsius"), c.temperature)
    && HoldsList(Value(m, "logical_cpus"), c.logicalCpus, LogicalCpuHeld)
  }

  predicate MemoryMetricsHeld(m: Fields, mm: MemoryMetrics) {
    && HoldsInteger(Value(m, "total_bytes"), mm.total)
    && HoldsInteger(Value(m, "available_bytes"), mm.available)
    && HoldsInteger(Value(m, "swap_total_bytes"), mm.swapTotal)
    && HoldsInteger(Value(m, "swap_available_bytes"), mm.swapAvailable)
  }

  predicate SystemLoadHeld(m: Fields, s: SystemLoad) {
    && HoldsNumber(Value(m, "uptime_seconds"), s.uptime)
    && HoldsNumber(Value(m, "load_average_1m"), s.load1)
    && HoldsNumber(Value(m, "load_average_5m"), s.load5)
    && HoldsNumber(Value(m, "load_average_15m"), s.load15)
  }

  /** Three sections and three lists. */
  ghost predicate MetricsHeld(value: Cbor, m: SystemMetrics) {
    && value.Map?
    && var root := value.fields;
    && SectionOk(root, "cpu") && SectionOk(root, "memory") && SectionOk(root, "system")
    && CpuMetricsHeld(Section(root, "cpu"), m.cpu)
    && MemoryMetricsHeld(Section(root, "memory"), m.memory)
    && SystemLoadHeld(Section(root, "system"), m.system)
    && HoldsList(Value(root, "storage_volumes"), m.volumes, VolumeHeld)
    && HoldsList(Value(root, "network_interfaces"), m.interfaces, InterfaceHeld)
    && HoldsList(Value(root, "gpus"), m.gpus, GpuHeld)
  }

  lemma LogicalCpuExactly(m: Fields, c: LogicalCpu)
    ensures ReadLogicalCpu(m) == Some(c) <==> LogicalCpuHeld(m, c) && LogicalCpuOk(c)
  {
    hide ReadRatio, ReadInteger, HoldsNumber, HoldsInteger, ValidText, RatioOk, IntegerOk;
    NumberExactly(m, "usage_ratio", c.usageRatio);
    IntegerExactly(m, "frequency_hz", c.frequency);
  }

  lemma VolumeExactly(m: Fields, v: StorageVolume)
    ensures ReadVolume(m) == Some(v) <==> VolumeHeld(m, v) && VolumeOk(v)
  {
    hide ReadInteger, HoldsInteger, ValidText, IntegerOk;
    IntegerExactly(m, "total_bytes", v.total);
    IntegerExactly(m, "available_bytes", v.available);
  }

  lemma InterfaceExactly(m: Fields, n: NetworkInterface)
    ensures ReadInterface(m) == Some(n) <==> InterfaceHeld(m, n) && InterfaceOk(n)
  {
    hide ReadInteger, ReadNumber, ReadRatio, HoldsInteger, HoldsNumber, ValidText, IntegerOk, NumberOk, RatioOk;
    IntegerExactly(m, "rx_bytes", n.received);
    IntegerExactly(m, "tx_bytes", n.sent);
    NumberExactly(m, "rx_bytes_per_second", n.receiveRate);
    NumberExactly(m, "tx_bytes_per_second", n.sendRate);
  }

  lemma GpuExactly(m: Fields, g: Gpu)
    ensures ReadGpu(m) == Some(g) <==> GpuHeld(m, g) && GpuOk(g)
  {
    hide ReadInteger, ReadNumber, ReadRatio, HoldsInteger, HoldsNumber, ValidText, IntegerOk, NumberOk, RatioOk;
    NumberExactly(m, "usage_ratio", g.usageRatio);
    IntegerExactly(m, "memory_total_bytes", g.memoryTotal);
    IntegerExactly(m, "memory_used_bytes", g.memoryUsed);
    IntegerExactly(m, "core_clock_hz", g.coreClock);
    IntegerExactly(m, "memory_clock_hz", g.memoryClock);
    NumberExactly(m, "temperature_celsius", g.temperature);
  }

  lemma CpuMetricsExactly(m: Fields, c: CpuMetrics)
    ensures ReadCpuMetrics(m) == Some(c) <==>
      && CpuMetricsHeld(m, c) && RatioOk(c.usageRatio) && NumberOk(c.temperature)
      && NamedOk(c.logicalCpus, 256, LogicalCpuOk, CpuName)
  {
    hide ReadNumber, ReadRatio, ReadNamed, HoldsNumber, HoldsList, ReadLogicalCpu, LogicalCpuHeld, LogicalCpuOk;
    hide CpuName, RatioOk, NumberOk, NamedOk;
    NumberExactly(m, "usage_ratio", c.usageRatio);
    NumberExactly(m, "temperature_celsius", c.temperature);
    forall f, x ensures ReadLogicalCpu(f) == Some(x) <==> LogicalCpuHeld(f, x) && LogicalCpuOk(x) {
      LogicalCpuExactly(f, x);
    }
    ListExactly(Value(m, "logical_cpus"), 256, ReadLogicalCpu, CpuName, c.logicalCpus, LogicalCpuHeld, LogicalCpuOk);
  }

  lemma MemoryMetricsExactly(m: Fields, mm: MemoryMetrics)
    ensures ReadMemoryMetrics(m) == Some(mm) <==>
      && MemoryMetricsHeld(m, mm) && IntegerOk(mm.total) && IntegerOk(mm.available)
      && IntegerOk(mm.swapTotal) && IntegerOk(mm.swapAvailable)
  {
    hide ReadInteger, HoldsInteger, IntegerOk;
    IntegerExactly(m, "total_bytes", mm.total);
    IntegerExactly(m, "available_bytes", mm.available);
    IntegerExactly(m, "swap_total_bytes", mm.swapTotal);
    IntegerExactly(m, "swap_available_bytes", mm.swapAvailable);
  }

  lemma SystemLoadExactly(m: Fields, s: SystemLoad)
    ensures ReadSystemLoad(m) == Some(s) <==>
      SystemLoadHeld(m, s) && NumberOk(s.uptime) && NumberOk(s.load1) && NumberOk(s.load5) && NumberOk(s.load15)
  {
    hide ReadNumber, ReadRatio, HoldsNumber, NumberOk, RatioOk;
    NumberExactly(m, "uptime_seconds", s.uptime);
    NumberExactly(m, "load_average_1m", s.load1);
    NumberExactly(m, "load_average_5m", s.load5);
    NumberExactly(m, "load_average_15m", s.load15);
  }

  lemma ListsExactly(root: Fields, m: SystemMetrics)
    ensures ReadNamed(Value(root, "storage_volumes"), 64, ReadVolume, VolumeName) == Some(m.volumes) <==>
      HoldsList(Value(root, "storage_volumes"), m.volumes, VolumeHeld) && NamedOk(m.volumes, 64, VolumeOk, VolumeName)
    ensures ReadNamed(Value(root, "network_interfaces"), 64, ReadInterface, InterfaceName) == Some(m.interfaces) <==>
      && HoldsList(Value(root, "network_interfaces"), m.interfaces, InterfaceHeld)
      && NamedOk(m.interfaces, 64, InterfaceOk, InterfaceName)
    ensures ReadNamed(Value(root, "gpus"), 16, ReadGpu, GpuName) == Some(m.gpus) <==>
      HoldsList(Value(root, "gpus"), m.gpus, GpuHeld) && NamedOk(m.gpus, 16, GpuOk, GpuName)
  {
    hide *;
    forall f, x ensures ReadVolume(f) == Some(x) <==> VolumeHeld(f, x) && VolumeOk(x) {
      VolumeExactly(f, x);
    }
    forall f, x ensures ReadInterface(f) == Some(x) <==> InterfaceHeld(f, x) && InterfaceOk(x) {
      InterfaceExactly(f, x);
    }
    forall f, x ensures ReadGpu(f) == Some(x) <==> GpuHeld(f, x) && GpuOk(x) {
      GpuExactly(f, x);
    }
    ListExactly(Value(root, "storage_volumes"), 64, ReadVolume, VolumeName, m.volumes, VolumeHeld, VolumeOk);
    ListExactly(Value(root, "network_interfaces"), 64, ReadInterface, InterfaceName, m.interfaces, InterfaceHeld,
                InterfaceOk);
    ListExactly(Value(root, "gpus"), 16, ReadGpu, GpuName, m.gpus, GpuHeld, GpuOk);
  }

  /** Metrics are read from a value exactly when they are well formed and the value holds them. */
  lemma MetricsExactly(value: Cbor, m: SystemMetrics)
    ensures MetricsFromMap(value) == Some(m) <==> MetricsHeld(value, m) && MetricsOk(m)
  {
    hide ReadSection, SectionOk, Section, Value, ReadCpuMetrics, ReadMemoryMetrics, ReadSystemLoad, ReadNamed, PartsOk;
    hide CpuMetricsHeld, MemoryMetricsHeld, SystemLoadHeld, HoldsList, NamedOk, IntegerOk, NumberOk, RatioOk;
    hide ReadVolume, ReadInterface, ReadGpu, VolumeHeld, InterfaceHeld, GpuHeld, VolumeOk, InterfaceOk, GpuOk;
    hide VolumeName, InterfaceName, GpuName, CpuName, LogicalCpuOk;
    if value.Map? {
      var root := value.fields;
      SectionExactly(root, "cpu");
      SectionExactly(root, "memory");
      SectionExactly(root, "system");
      CpuMetricsExactly(Section(root, "cpu"), m.cpu);
      MemoryMetricsExactly(Section(root, "memory"), m.memory);
      SystemLoadExactly(Section(root, "system"), m.system);
      ListsExactly(root, m);
    }
  }

  // --- Messages --------------------------------------------------------------------------

  predicate EnvelopeHeld(root: Fields, kind: string, device: Uuid, instance: Uuid) {
    && Value(root, "version") == Integer(1) && Value(root, "type") == Text(kind)
    && Value(root, "device_id") == ByteArray(device) && Value(root, "instance_id") == ByteArray(instance)
  }

  /** Every field of the message under its name; an absent reason is an empty one. */
  ghost predicate MessageHeld(value: Cbor, m: Message) {
    && value.Map?
    && var root := value.fields;
    match m
    case Hello(device, instance, name, interval, info) =>
      && EnvelopeHeld(root, "hello", device, instance)
      && Value(root, "display_name") == Text(name) && Value(root, "interval_s") == Integer(interval)
      && InfoHeld(Value(root, "system_info"), info)
    case RegistrationResult(device, instance, accepted, reason) =>
      && EnvelopeHeld(root, "registration_result", device, instance)
      && Value(root, "accepted") == Bool(accepted)
      && (Value(root, "reason") == Text(reason) || (Value(root, "reason") == Undefined && reason == ""))
    case DeviceSnapshot(device, instance, interval, sequence, info, metrics) =>
      && EnvelopeHeld(root, "snapshot", device, instance)
      && Value(root, "interval_s") == Integer(interval) && HoldsInteger(Value(root, "sequence"), Some(sequence))
      && InfoHeld(Value(root, "system_info"), info)
      && if metrics.Some? then MetricsHeld(Value(root, "metrics"), metrics.value)
         else Value(root, "metrics") == Undefined
  }

  lemma HelloExactly(root: Fields, m: Message)
    requires m.Hello?
    ensures DecodeValue(Map(root)) == Decoded(m) <==> MessageHeld(Map(root), m) && MessageOk(m)
  {
    hide InfoFromMap, MetricsFromMap, InfoHeld, InfoOk, MetricsHeld, MetricsOk, ValidText, IsNull, Utf8Size;
    InfoExactly(Value(root, "system_info"), m.info);
  }

  lemma ResultExactly(root: Fields, m: Message)
    requires m.RegistrationResult?
    ensures DecodeValue(Map(root)) == Decoded(m) <==> MessageHeld(Map(root), m) && MessageOk(m)
  {
    hide InfoFromMap, MetricsFromMap, InfoHeld, InfoOk, MetricsHeld, MetricsOk, ValidText, IsNull, Utf8Size;
    UseUtf8OfNothing();
  }

  lemma SnapshotExactly(root: Fields, m: Message)
    requires m.DeviceSnapshot?
    ensures DecodeValue(Map(root)) == Decoded(m) <==> MessageHeld(Map(root), m) && MessageOk(m)
  {
    hide InfoFromMap, MetricsFromMap, InfoHeld, InfoOk, MetricsOk, ValidText, IsNull, Utf8Size;
    hide CpuMetricsHeld, MemoryMetricsHeld, SystemLoadHeld, HoldsList, SectionOk;
    InfoExactly(Value(root, "system_info"), m.info);
    if m.metrics.Some? {
      MetricsExactly(Value(root, "metrics"), m.metrics.value);
    }
  }

  /** A value is decoded as a message exactly when the message is well formed and the value holds it. */
  lemma DecodesExactly(value: Cbor, m: Message)
    ensures DecodeValue(value) == Decoded(m) <==> MessageHeld(value, m) && MessageOk(m)
  {
    hide *;
    if value.Map? {
      match m {
        case Hello(_, _, _, _, _) => HelloExactly(value.fields, m);
        case RegistrationResult(_, _, _, _) => ResultExactly(value.fields, m);
        case DeviceSnapshot(_, _, _, _, _, _) => SnapshotExactly(value.fields, m);
      }
    } else {
      NoMapNoMessage(value, m);
    }
  }

  lemma NoMapNoMessage(value: Cbor, m: Message)
    requires !value.Map?
    ensures DecodeValue(value) == Refused("malformed_cbor") && !MessageHeld(value, m)
  {
  }

  predicate IdHeld(c: Cbor) {
    c.ByteArray? && |c.bytes| == 16 && !IsNull(c.bytes)
  }

  /**
   * The error names the first fault: the version, then the envelope, then the contents of the kind of message; metrics
   * are at fault exactly when the snapshot is good without them.
   */
  lemma RefusalNamesTheFault(root: Fields)
    requires DecodeValue(Map(root)).Refused?
    ensures DecodeValue(Map(root)).error ==
      if Value(root, "version") != Integer(1) then "unsupported_version"
      else if !Value(root, "type").Text? || !IdHeld(Value(root, "device_id")) || !IdHeld(Value(root, "instance_id"))
      then "invalid_identity"
      else if Value(root, "type") == Text("hello") then "invalid_registration"
      else if Value(root, "type") == Text("registration_result") then "invalid_registration_result"
      else if Value(root, "type") != Text("snapshot") then "unsupported_type"
      else if DecodeValue(Map(root - {"metrics"})).Decoded? then "invalid_metrics"
      else "invalid_snapshot"
  {
    hide InfoFromMap, MetricsFromMap, ValidText, IsNull, Utf8Size;
    var bare := root - {"metrics"};
    forall key | key != "metrics" ensures Value(bare, key) == Value(root, key) {
    }
    assert "device_id"[0] != 'm' && "instance_id"[0] != 'm' && "type"[0] != 'm' && "version"[0] != 'm';
    assert "interval_s"[0] != 'm' && "sequence"[0] != 'm' && "system_info"[0] != 'm' && "metrics"[0] == 'm';
  }
}
