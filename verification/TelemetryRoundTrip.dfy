/** decodeMessage undoes encodeMessage, and whatever it accepts is well formed. */
module TelemetryRoundTrip {
  import opened Wrappers
  import opened CborFormat
  import opened Ordering
  import opened TelemetryTypes
  import opened TelemetrySchema

  // --- Maps built by inserts ------------------------------------------------

  ghost predicate DistinctKeys(entries: seq<Entry>) {
    forall i, j :: 0 <= i < j < |entries| ==> entries[i].key != entries[j].key
  }

  lemma {:induction false} NeverInserted(entries: seq<Entry>, key: string)
    requires forall i :: 0 <= i < |entries| ==> entries[i].key != key
    ensures key !in Build(entries)
  {
    if entries != [] {
      NeverInserted(entries[..|entries| - 1], key);
    }
  }

  /** Reading a key gives back what was inserted under it, and undefined when nothing was. */
  lemma {:induction false} InsertedValue(entries: seq<Entry>, i: nat)
    requires DistinctKeys(entries) && i < |entries|
    ensures Value(Build(entries), entries[i].key) == entries[i].value.GetOr(Undefined)
  {
    var prefix := entries[..|entries| - 1];
    if i == |entries| - 1 {
      NeverInserted(prefix, entries[i].key);
    } else {
      assert prefix[i] == entries[i];
      InsertedValue(prefix, i);
    }
  }

  lemma InsertedValues(entries: seq<Entry>)
    requires DistinctKeys(entries)
    ensures forall i :: 0 <= i < |entries| ==>
      Value(Build(entries), entries[i].key) == entries[i].value.GetOr(Undefined)
  {
    forall i | 0 <= i < |entries|
      ensures Value(Build(entries), entries[i].key) == entries[i].value.GetOr(Undefined)
    {
      InsertedValue(entries, i);
    }
  }

  lemma SectionBack(root: Fields, key: string, section: Fields)
    requires Value(root, key) == SectionEntry(key, section).value.GetOr(Undefined)
    ensures ReadSection(root, key) == Some(section)
  {
  }

  // --- System information ---------------------------------------------------

  lemma HostBack(h: Host)
    requires TextOk(h.hostName)
    ensures ReadText(Build(HostEntries(h)), "host_name") == Some(h.hostName)
  {
    hide Build, ValidText;
    var e := HostEntries(h);
    InsertedValues(e);
    assert e[0].key == "host_name";
  }

  lemma OsBack(os: OperatingSystem)
    requires TextOk(os.family) && TextOk(os.id) && TextOk(os.version) && TextOk(os.prettyName)
    ensures ReadOs(Build(OsEntries(os))) == Some(os)
  {
    hide Build, ValidText;
    var e := OsEntries(os);
    InsertedValues(e);
    assert e[0].key == "os_family" && e[1].key == "os_id" && e[2].key == "os_version" && e[3].key == "os_pretty_name";
  }

  lemma KernelBack(k: Kernel)
    requires TextOk(k.kind) && TextOk(k.version)
    ensures ReadKernel(Build(KernelEntries(k))) == Some(k)
  {
    hide Build, ValidText;
    var e := KernelEntries(k);
    InsertedValues(e);
    assert e[0].key == "kernel_type" && e[1].key == "kernel_version";
  }

  lemma MemoryBack(m: MemoryInfo)
    requires IntegerOk(m.totalBytes)
    ensures ReadInteger(Build(MemoryEntries(m)), "total_bytes") == Some(m.totalBytes)
  {
    hide Build;
    var e := MemoryEntries(m);
    InsertedValues(e);
    assert e[0].key == "total_bytes";
  }

  lemma CpuBack(c: CpuInfo)
    requires TextOk(c.architecture) && TextOk(c.vendor) && TextOk(c.model)
    requires c.logicalCount.Some? ==> c.logicalCount.value <= 256
    ensures ReadCpu(Build(CpuEntries(c))) == Some(c)
  {
    hide Build, ValidText;
    var e := CpuEntries(c);
    assert e[0].key == "architecture" && e[1].key == "vendor" && e[2].key == "model";
    assert e[3].key == "logical_cpu_count" && e[4].key == "physical_core_count";
    InsertedValues(e);
  }

  // --- Lists ----------------------------------------------------------------

  /** The compatible ids are read exactly when all are valid texts and no two are alike; they come in order. */
  lemma {:induction false} ReadTextsIff(items: seq<Cbor>, ids: seq<string>)
    ensures ReadTexts(items) == Some(ids) <==>
      && |ids| == |items| && AllDifferent(ids)
      && forall i :: 0 <= i < |items| ==> items[i] == Text(ids[i]) && ValidText(ids[i], 256)
  {
    hide ValidText;
    if items != [] {
      var front := items[..|items| - 1];
      if ids != [] {
        var n := |ids| - 1;
        ReadTextsIff(front, ids[..n]);
        assert ids == ids[..n] + [ids[n]];
        if ReadTexts(items) == Some(ids) {
          assert ReadTexts(front).Some? && ids == ReadTexts(front).value + [items[|items| - 1].text];
          assert ids[..n] == ReadTexts(front).value;
          assert ids[n] !in ids[..n];
        }
      }
    }
  }

  /** A list of named entries is read exactly when every entry is a map that parses and no two share a name. */
  lemma {:induction false} ReadEntriesIff<T, K>(items: seq<Cbor>, parse: Fields -> Option<T>, name: T -> K,
                                                list: seq<T>)
    ensures ReadEntries(items, parse, name) == Some(list) <==>
      && |list| == |items|
      && (forall i, j :: 0 <= i < j < |list| ==> name(list[i]) != name(list[j]))
      && forall i :: 0 <= i < |items| ==> items[i].Map? && parse(items[i].fields) == Some(list[i])
  {
    if items != [] && list != [] {
      var front, n := items[..|items| - 1], |list| - 1;
      ReadEntriesIff(front, parse, name, list[..n]);
      assert list == list[..n] + [list[n]];
      if ReadEntries(items, parse, name) == Some(list) {
        var read := ReadEntries(front, parse, name).value;
        assert list == read + [parse(items[|items| - 1].fields).value];
        assert list[..n] == read;
      }
    }
  }

  lemma ReadNamedBack<T>(list: seq<T>, limit: nat, toMap: T -> Fields, parse: Fields -> Option<T>, name: T -> string)
    requires |list| <= limit
    requires forall i, j :: 0 <= i < j < |list| ==> name(list[i]) != name(list[j])
    requires forall i :: 0 <= i < |list| ==> parse(toMap(list[i])) == Some(list[i])
    ensures ReadNamed(ListEntry("", Printed(list, toMap)).value.GetOr(Undefined), limit, parse, name) == Some(list)
  {
    hide ReadEntries;
    var items := Printed(list, toMap);
    ReadEntriesIff(items, parse, name, list);
  }

  lemma ReadNamedOk<T>(raw: Cbor, limit: nat, parse: Fields -> Option<T>, name: T -> string, ok: T -> bool)
    requires forall m :: parse(m).Some? ==> ok(parse(m).value)
    requires ReadNamed(raw, limit, parse, name).Some?
    ensures NamedOk(ReadNamed(raw, limit, parse, name).value, limit, ok, name)
  {
    hide ReadEntries;
    if raw.Array? {
      var list := ReadNamed(raw, limit, parse, name).value;
      ReadEntriesIff(raw.items, parse, name, list);
      forall i | 0 <= i < |list| ensures ok(list[i]) {
        assert parse(raw.items[i].fields) == Some(list[i]);
      }
    }
  }

  lemma HardwareBack(h: Hardware)
    requires TextOk(h.manufacturer) && TextOk(h.model) && TextOk(h.boardRevision)
    requires h.compatibleIds.Some? ==> IdsOk(h.compatibleIds.value)
    ensures ReadHardware(Build(HardwareEntries(h))) == Some(h)
  {
    hide Build, ValidText, ReadTexts;
    var e := HardwareEntries(h);
    assert e[2].key == "board_revision" && e[3].key == "compatible_ids";
    assert e[2].key[0] == 'b' && e[3].key[0] == 'c';
    assert e[0].key == "manufacturer" && e[1].key == "model";
    InsertedValues(e);
    if h.compatibleIds.Some? {
      ReadTextsIff(Texts(h.compatibleIds.value), h.compatibleIds.value);
    }
  }

  lemma InfoBack(info: SystemInfo)
    requires InfoOk(info)
    ensures InfoFromMap(Map(InfoToMap(info))) == Some(info)
  {
    hide Build, HostEntries, OsEntries, KernelEntries;
    hide HardwareEntries, CpuEntries, MemoryEntries, ReadText, ReadInteger;
    hide ReadOs, ReadKernel, ReadHardware, ReadCpu, HasAnyValue, TextOk, IdsOk, IntegerOk, ReadSection, SectionEntry;
    InfoSectionsBack(info);
    HostBack(info.host);
    OsBack(info.os);
    KernelBack(info.kernel);
    HardwareBack(info.hardware);
    CpuBack(info.cpu);
    MemoryBack(info.memory);
  }

  lemma InfoSectionsBack(info: SystemInfo)
    ensures var root := InfoToMap(info);
      && ReadSection(root, "host") == Some(Build(HostEntries(info.host)))
      && ReadSection(root, "os") == Some(Build(OsEntries(info.os)))
      && ReadSection(root, "kernel") == Some(Build(KernelEntries(info.kernel)))
      && ReadSection(root, "hardware") == Some(Build(HardwareEntries(info.hardware)))
      && ReadSection(root, "cpu") == Some(Build(CpuEntries(info.cpu)))
      && ReadSection(root, "memory") == Some(Build(MemoryEntries(info.memory)))
  {
    hide Build, HostEntries, OsEntries, KernelEntries, HardwareEntries, CpuEntries, MemoryEntries;
    hide DistinctKeys, SectionEntry, ReadSection, Value;
    var e := InfoEntries(info);
    InfoKeys(info);
    InsertedValues(e);
    assert e[0].key == "host" && e[1].key == "os" && e[2].key == "kernel";
    assert e[3].key == "hardware" && e[4].key == "cpu" && e[5].key == "memory";
    var root := InfoToMap(info);
    SectionBack(root, "host", Build(HostEntries(info.host)));
    SectionBack(root, "os", Build(OsEntries(info.os)));
    SectionBack(root, "kernel", Build(KernelEntries(info.kernel)));
    SectionBack(root, "hardware", Build(HardwareEntries(info.hardware)));
    SectionBack(root, "cpu", Build(CpuEntries(info.cpu)));
    SectionBack(root, "memory", Build(MemoryEntries(info.memory)));
  }

  lemma InfoKeys(info: SystemInfo)
    ensures DistinctKeys(InfoEntries(info))
  {
    hide Build, HostEntries, OsEntries, KernelEntries, HardwareEntries, CpuEntries, MemoryEntries;
    var e := InfoEntries(info);
    assert e[0].key == "host" && e[1].key == "os" && e[3].key == "hardware" && e[4].key == "cpu";
    assert e[2].key == "kernel" && e[2].key[0] == 'k';
    assert e[5].key == "memory" && e[5].key[0] == 'm';
  }

  // --- Metrics --------------------------------------------------------------

  lemma LogicalCpuBack(x: LogicalCpu)
    requires LogicalCpuOk(x)
    ensures ReadLogicalCpu(LogicalCpuToMap(x)) == Some(x)
  {
    hide Build, ValidText;
    var e := LogicalCpuEntries(x);
    assert e[0].key == "name" && e[1].key == "usage_ratio" && e[2].key == "frequency_hz";
    InsertedValues(e);
  }

  lemma VolumeKeys(x: StorageVolume)
    ensures DistinctKeys(VolumeEntries(x))
  {
    var e := VolumeEntries(x);
    assert e[0].key == "mount_point" && e[1].key == "device_name" && e[2].key == "primary";
    assert e[3].key == "read_only" && e[4].key == "total_bytes" && e[5].key == "available_bytes";
    assert e[0].key[0] == 'm' && e[1].key[0] == 'd' && e[4].key[0] == 't';
  }

  lemma VolumeBack(x: StorageVolume)
    requires VolumeOk(x)
    ensures ReadVolume(VolumeToMap(x)) == Some(x)
  {
    hide Build, ValidText, DistinctKeys;
    var e := VolumeEntries(x);
    VolumeKeys(x);
    assert e[0].key == "mount_point" && e[1].key == "device_name" && e[2].key == "primary";
    assert e[3].key == "read_only" && e[4].key == "total_bytes" && e[5].key == "available_bytes";
    InsertedValues(e);
  }

  lemma InterfaceBack(x: NetworkInterface)
    requires InterfaceOk(x)
    ensures ReadInterface(InterfaceToMap(x)) == Some(x)
  {
    hide Build, ValidText;
    var e := InterfaceEntries(x);
    assert e[0].key == "name" && e[1].key == "rx_bytes" && e[2].key == "tx_bytes";
    assert e[3].key == "rx_bytes_per_second" && e[4].key == "tx_bytes_per_second";
    assert e[1].key[0] == 'r' && e[2].key[0] == 't' && e[3].key[0] == 'r' && e[4].key[0] == 't';
    InsertedValues(e);
  }

  lemma GpuKeys(x: Gpu)
    ensures DistinctKeys(GpuEntries(x))
  {
    var e := GpuEntries(x);
    assert e[0].key == "name" && e[1].key == "usage_ratio" && e[2].key == "memory_total_bytes";
    assert e[3].key == "memory_used_bytes" && e[4].key == "core_clock_hz" && e[5].key == "memory_clock_hz";
    assert e[6].key == "temperature_celsius";
  }

  lemma GpuBack(x: Gpu)
    requires GpuOk(x)
    ensures ReadGpu(GpuToMap(x)) == Some(x)
  {
    hide Build, ValidText, DistinctKeys;
    var e := GpuEntries(x);
    GpuKeys(x);
    assert e[0].key == "name" && e[1].key == "usage_ratio" && e[2].key == "memory_total_bytes";
    assert e[3].key == "memory_used_bytes" && e[4].key == "core_clock_hz" && e[5].key == "memory_clock_hz";
    assert e[6].key == "temperature_celsius";
    InsertedValues(e);
  }

  lemma MemoryMetricsBack(x: MemoryMetrics)
    requires IntegerOk(x.total) && IntegerOk(x.available) && IntegerOk(x.swapTotal) && IntegerOk(x.swapAvailable)
    ensures ReadMemoryMetrics(Build(MemoryMetricsEntries(x))) == Some(x)
  {
    hide Build, ValidText;
    var e := MemoryMetricsEntries(x);
    assert e[0].key == "total_bytes" && e[1].key == "available_bytes" && e[2].key == "swap_total_bytes";
    assert e[3].key == "swap_available_bytes";
    InsertedValues(e);
  }

  lemma SystemLoadBack(x: SystemLoad)
    requires NumberOk(x.uptime) && NumberOk(x.load1) && NumberOk(x.load5) && NumberOk(x.load15)
    ensures ReadSystemLoad(Build(SystemLoadEntries(x))) == Some(x)
  {
    hide Build, ValidText;
    var e := SystemLoadEntries(x);
    assert e[0].key == "uptime_seconds" && e[1].key == "load_average_1m" && e[2].key == "load_average_5m";
    assert e[3].key == "load_average_15m";
    assert e[1].key[13] == '1' && e[2].key[13] == '5';
    InsertedValues(e);
  }

  lemma CpuMetricsBack(x: CpuMetrics)
    requires RatioOk(x.usageRatio) && NumberOk(x.temperature)
    requires NamedOk(x.logicalCpus, 256, LogicalCpuOk, CpuName)
    ensures ReadCpuMetrics(Build(CpuMetricsEntries(x))) == Some(x)
  {
    hide Build, ReadNamed, LogicalCpuToMap, ReadLogicalCpu, LogicalCpuOk, CpuName, Printed;
    var e := CpuMetricsEntries(x);
    assert e[0].key == "usage_ratio" && e[1].key == "temperature_celsius" && e[2].key == "logical_cpus";
    InsertedValues(e);
    forall i | 0 <= i < |x.logicalCpus|
      ensures ReadLogicalCpu(LogicalCpuToMap(x.logicalCpus[i])) == Some(x.logicalCpus[i])
    {
      LogicalCpuBack(x.logicalCpus[i]);
    }
    ReadNamedBack(x.logicalCpus, 256, LogicalCpuToMap, ReadLogicalCpu, CpuName);
  }

  lemma VolumesBack(list: seq<StorageVolume>)
    requires NamedOk(list, 64, VolumeOk, VolumeName)
    ensures ReadNamed(ListEntry("", Printed(list, VolumeToMap)).value.GetOr(Undefined), 64, ReadVolume, VolumeName)
         == Some(list)
  {
    hide ReadNamed, VolumeToMap, ReadVolume, VolumeOk, VolumeName, Printed;
    forall i | 0 <= i < |list| ensures ReadVolume(VolumeToMap(list[i])) == Some(list[i]) {
      VolumeBack(list[i]);
    }
    ReadNamedBack(list, 64, VolumeToMap, ReadVolume, VolumeName);
  }

  lemma InterfacesBack(list: seq<NetworkInterface>)
    requires NamedOk(list, 64, InterfaceOk, InterfaceName)
    ensures var raw := ListEntry("", Printed(list, InterfaceToMap)).value.GetOr(Undefined);
      ReadNamed(raw, 64, ReadInterface, InterfaceName) == Some(list)
  {
    hide ReadNamed, InterfaceToMap, ReadInterface, InterfaceOk, InterfaceName, Printed;
    forall i | 0 <= i < |list| ensures ReadInterface(InterfaceToMap(list[i])) == Some(list[i]) {
      InterfaceBack(list[i]);
    }
    ReadNamedBack(list, 64, InterfaceToMap, ReadInterface, InterfaceName);
  }

  lemma GpusBack(list: seq<Gpu>)
    requires NamedOk(list, 16, GpuOk, GpuName)
    ensures ReadNamed(ListEntry("", Printed(list, GpuToMap)).value.GetOr(Undefined), 16, ReadGpu, GpuName) == Some(list)
  {
    hide ReadNamed, GpuToMap, ReadGpu, GpuOk, GpuName, Printed;
    forall i | 0 <= i < |list| ensures ReadGpu(GpuToMap(list[i])) == Some(list[i]) {
      GpuBack(list[i]);
    }
    ReadNamedBack(list, 16, GpuToMap, ReadGpu, GpuName);
  }

  lemma MetricsBack(m: SystemMetrics)
    requires MetricsOk(m)
    ensures MetricsFromMap(Map(MetricsToMap(m))) == Some(m)
  {
    hide Build, CpuMetricsEntries, MemoryMetricsEntries, SystemLoadEntries, VolumeToMap, InterfaceToMap, GpuToMap;
    hide ReadNamed, ReadVolume, ReadInterface, ReadGpu, ReadCpuMetrics, ReadMemoryMetrics, ReadSystemLoad, PartsOk;
    hide NamedOk, Printed, VolumeName, InterfaceName, GpuName, RatioOk, NumberOk, IntegerOk, ReadSection, SectionEntry;
    MetricsSectionsBack(m);
    CpuMetricsBack(m.cpu);
    MemoryMetricsBack(m.memory);
    SystemLoadBack(m.system);
    VolumesBack(m.volumes);
    InterfacesBack(m.interfaces);
    GpusBack(m.gpus);
  }

  lemma MetricsSectionsBack(m: SystemMetrics)
    ensures var root := MetricsToMap(m);
      && ReadSection(root, "cpu") == Some(Build(CpuMetricsEntries(m.cpu)))
      && ReadSection(root, "memory") == Some(Build(MemoryMetricsEntries(m.memory)))
      && ReadSection(root, "system") == Some(Build(SystemLoadEntries(m.system)))
      && Value(root, "storage_volumes") == ListEntry("", Printed(m.volumes, VolumeToMap)).value.GetOr(Undefined)
      && Value(root, "network_interfaces")
          == ListEntry("", Printed(m.interfaces, InterfaceToMap)).value.GetOr(Undefined)
      && Value(root, "gpus") == ListEntry("", Printed(m.gpus, GpuToMap)).value.GetOr(Undefined)
  {
    hide Build, CpuMetricsEntries, MemoryMetricsEntries, SystemLoadEntries, VolumeToMap, InterfaceToMap, GpuToMap;
    hide DistinctKeys, Printed;
    var e := MetricsEntries(m);
    MetricsKeys(m);
    InsertedValues(e);
    assert e[0].key == "cpu" && e[1].key == "memory" && e[2].key == "system";
    assert e[3].key == "storage_volumes" && e[4].key == "network_interfaces" && e[5].key == "gpus";
  }

  lemma MetricsKeys(m: SystemMetrics)
    ensures DistinctKeys(MetricsEntries(m))
  {
    hide Build, CpuMetricsEntries, MemoryMetricsEntries, SystemLoadEntries, VolumeToMap, InterfaceToMap, GpuToMap;
    hide Printed;
    var e := MetricsEntries(m);
    assert e[0].key == "cpu" && e[3].key == "storage_volumes" && e[4].key == "network_interfaces" && e[5].key == "gpus";
    assert e[1].key == "memory" && e[1].key[0] == 'm';
    assert e[2].key == "system" && e[2].key[0] == 's';
  }

  // --- Messages -------------------------------------------------------------

  lemma MessageKeys(m: Message)
    ensures DistinctKeys(MessageEntries(m))
  {
    hide InfoToMap, MetricsToMap;
    var e := MessageEntries(m);
    assert e[0].key == "device_id" && e[1].key == "instance_id" && e[2].key == "type" && e[3].key == "version";
    assert e[1].key[0] == 'i' && e[3].key[0] == 'v';
    match m
    case Hello(_, _, _, _, _) =>
      assert e[4].key == "display_name" && e[5].key == "interval_s" && e[6].key == "system_info" && e[6].key[0] == 's';
    case RegistrationResult(_, _, _, _) =>
      assert e[4].key == "accepted" && e[5].key == "reason";
    case DeviceSnapshot(_, _, _, _, _, _) =>
      assert e[4].key == "interval_s" && e[5].key == "sequence" && e[6].key == "system_info" && e[6].key[0] == 's';
      assert e[7].key == "metrics" && e[7].key[0] == 'm';
  }

  lemma EnvelopeBack(m: Message)
    requires !IsNull(m.deviceId) && !IsNull(m.instanceId)
    ensures var root := Build(MessageEntries(m));
      && ReadId(root, "device_id") == Some(m.deviceId) && ReadId(root, "instance_id") == Some(m.instanceId)
      && Value(root, "version") == Integer(1)
      && Value(root, "type") == Text(match m
                                     case Hello(_, _, _, _, _) => "hello"
                                     case RegistrationResult(_, _, _, _) => "registration_result"
                                     case DeviceSnapshot(_, _, _, _, _, _) => "snapshot")
  {
    hide Build, InfoToMap, MetricsToMap, IsNull, DistinctKeys;
    var e := MessageEntries(m);
    MessageKeys(m);
    InsertedValues(e);
    assert e[0].key == "device_id" && e[1].key == "instance_id" && e[2].key == "type" && e[3].key == "version";
  }

  lemma HelloBack(m: Message)
    requires MessageOk(m) && m.Hello?
    ensures DecodeHello(Build(MessageEntries(m)), m.deviceId, m.instanceId) == Decoded(m)
  {
    hide Build, InfoToMap, InfoFromMap, ValidText, InfoOk, IsNull, DistinctKeys;
    var e := MessageEntries(m);
    MessageKeys(m);
    InsertedValues(e);
    assert e[4].key == "display_name" && e[5].key == "interval_s" && e[6].key == "system_info";
    InfoBack(m.info);
  }

  lemma RegistrationResultBack(m: Message)
    requires MessageOk(m) && m.RegistrationResult?
    ensures DecodeRegistrationResult(Build(MessageEntries(m)), m.deviceId, m.instanceId) == Decoded(m)
  {
    hide Build, IsNull, DistinctKeys, Utf8Size;
    var e := MessageEntries(m);
    MessageKeys(m);
    InsertedValues(e);
    assert e[4].key == "accepted" && e[5].key == "reason";
  }

  lemma SnapshotBack(m: Message)
    requires MessageOk(m) && m.DeviceSnapshot?
    ensures DecodeSnapshot(Build(MessageEntries(m)), m.deviceId, m.instanceId) == Decoded(m)
  {
    hide Build, InfoToMap, InfoFromMap, MetricsToMap, MetricsFromMap, InfoOk, MetricsOk, IsNull, DistinctKeys;
    var e := MessageEntries(m);
    MessageKeys(m);
    InsertedValues(e);
    assert e[4].key == "interval_s" && e[5].key == "sequence" && e[6].key == "system_info" && e[7].key == "metrics";
    InfoBack(m.info);
    if m.metrics.Some? {
      MetricsBack(m.metrics.value);
    }
  }

  /** decodeMessage undoes encodeMessage on every well-formed message. */
  lemma RoundTrip(m: Message)
    requires MessageOk(m)
    ensures DecodeValue(Map(Build(MessageEntries(m)))) == Decoded(m)
  {
    hide Build, MessageEntries, DecodeHello, DecodeRegistrationResult;
    hide DecodeSnapshot, ReadId, IsNull, InfoOk, MetricsOk;
    EnvelopeBack(m);
    match m
    case Hello(_, _, _, _, _) => HelloBack(m);
    case RegistrationResult(_, _, _, _) => RegistrationResultBack(m);
    case DeviceSnapshot(_, _, _, _, _, _) => SnapshotBack(m);
  }

  // --- What is accepted is well formed --------------------------------------

  lemma ReadTextOk(m: Fields, key: string)
    ensures ReadText(m, key).Some? ==> TextOk(ReadText(m, key).value)
  {
    hide ValidText;
  }

  lemma ReadOsOk(m: Fields)
    ensures ReadOs(m).Some? ==>
      var os := ReadOs(m).value;
      TextOk(os.family) && TextOk(os.id) && TextOk(os.version) && TextOk(os.prettyName)
  {
    hide ReadText, TextOk;
    ReadTextOk(m, "os_family");
    ReadTextOk(m, "os_id");
    ReadTextOk(m, "os_version");
    ReadTextOk(m, "os_pretty_name");
  }

  lemma ReadKernelOk(m: Fields)
    ensures ReadKernel(m).Some? ==> TextOk(ReadKernel(m).value.kind) && TextOk(ReadKernel(m).value.version)
  {
    hide ReadText, TextOk;
    ReadTextOk(m, "kernel_type");
    ReadTextOk(m, "kernel_version");
  }

  lemma ReadHardwareOk(m: Fields)
    ensures ReadHardware(m).Some? ==>
      var h := ReadHardware(m).value;
      && TextOk(h.manufacturer) && TextOk(h.model) && TextOk(h.boardRevision)
      && (h.compatibleIds.Some? ==> IdsOk(h.compatibleIds.value))
  {
    hide ReadText, TextOk, ReadTexts, ValidText;
    ReadTextOk(m, "manufacturer");
    ReadTextOk(m, "model");
    ReadTextOk(m, "board_revision");
    var raw := Value(m, "compatible_ids");
    if raw.Array? && ReadTexts(raw.items).Some? {
      ReadTextsIff(raw.items, ReadTexts(raw.items).value);
    }
  }

  lemma ReadCpuOk(m: Fields)
    ensures ReadCpu(m).Some? ==>
      var c := ReadCpu(m).value;
      && TextOk(c.architecture) && TextOk(c.vendor) && TextOk(c.model)
      && (c.logicalCount.Some? ==> c.logicalCount.value <= 256)
  {
    hide ReadText, TextOk;
    ReadTextOk(m, "architecture");
    ReadTextOk(m, "vendor");
    ReadTextOk(m, "model");
  }

  lemma ReadInfoOk(value: Cbor)
    requires InfoFromMap(value).Some?
    ensures InfoOk(InfoFromMap(value).value)
  {
    hide TextOk, IdsOk, ReadText, HasAnyValue, ReadSection, ReadOs, ReadKernel, ReadHardware, ReadCpu;
    ReadTextOk(ReadSection(value.fields, "host").value, "host_name");
    ReadOsOk(ReadSection(value.fields, "os").value);
    ReadKernelOk(ReadSection(value.fields, "kernel").value);
    ReadHardwareOk(ReadSection(value.fields, "hardware").value);
    ReadCpuOk(ReadSection(value.fields, "cpu").value);
  }

  lemma ReadCpuMetricsOk(m: Fields)
    ensures ReadCpuMetrics(m).Some? ==>
      var c := ReadCpuMetrics(m).value;
      RatioOk(c.usageRatio) && NumberOk(c.temperature) && NamedOk(c.logicalCpus, 256, LogicalCpuOk, CpuName)
  {
    hide ReadNamed, ReadLogicalCpu, LogicalCpuOk, NamedOk, CpuName;
    EntriesOk();
    if ReadNamed(Value(m, "logical_cpus"), 256, ReadLogicalCpu, CpuName).Some? {
      ReadNamedOk(Value(m, "logical_cpus"), 256, ReadLogicalCpu, CpuName, LogicalCpuOk);
    }
  }

  lemma ReadMemoryMetricsOk(m: Fields)
    ensures ReadMemoryMetrics(m).Some? ==>
      var x := ReadMemoryMetrics(m).value;
      IntegerOk(x.total) && IntegerOk(x.available) && IntegerOk(x.swapTotal) && IntegerOk(x.swapAvailable)
  {
  }

  lemma ReadSystemLoadOk(m: Fields)
    ensures ReadSystemLoad(m).Some? ==>
      var x := ReadSystemLoad(m).value;
      NumberOk(x.uptime) && NumberOk(x.load1) && NumberOk(x.load5) && NumberOk(x.load15)
  {
  }

  lemma ReadMetricsOk(value: Cbor)
    requires MetricsFromMap(value).Some?
    ensures MetricsOk(MetricsFromMap(value).value)
  {
    hide ReadNamed, ReadLogicalCpu, ReadVolume, ReadInterface, ReadGpu, PartsOk, NamedOk, RatioOk, NumberOk, IntegerOk;
    hide LogicalCpuOk, VolumeOk, InterfaceOk, GpuOk, CpuName, VolumeName, InterfaceName, GpuName;
    hide ReadSection, ReadCpuMetrics, ReadMemoryMetrics, ReadSystemLoad;
    EntriesOk();
    var root := value.fields;
    ReadCpuMetricsOk(ReadSection(root, "cpu").value);
    ReadMemoryMetricsOk(ReadSection(root, "memory").value);
    ReadSystemLoadOk(ReadSection(root, "system").value);
    ReadNamedOk(Value(root, "storage_volumes"), 64, ReadVolume, VolumeName, VolumeOk);
    ReadNamedOk(Value(root, "network_interfaces"), 64, ReadInterface, InterfaceName, InterfaceOk);
    ReadNamedOk(Value(root, "gpus"), 16, ReadGpu, GpuName, GpuOk);
  }

  lemma EntriesOk()
    ensures forall m :: ReadLogicalCpu(m).Some? ==> LogicalCpuOk(ReadLogicalCpu(m).value)
    ensures forall m :: ReadVolume(m).Some? ==> VolumeOk(ReadVolume(m).value)
    ensures forall m :: ReadInterface(m).Some? ==> InterfaceOk(ReadInterface(m).value)
    ensures forall m :: ReadGpu(m).Some? ==> GpuOk(ReadGpu(m).value)
  {
    hide ValidText;
  }

  /** Whatever decodeMessage accepts is well formed, so encoding it again loses nothing. */
  lemma AcceptedIsWellFormed(value: Cbor)
    ensures DecodeValue(value).Decoded? ==> MessageOk(DecodeValue(value).message)
    ensures DecodeValue(value).Decoded? ==>
      DecodeValue(Map(Build(MessageEntries(DecodeValue(value).message)))) == DecodeValue(value)
  {
    hide Build, InfoFromMap, MetricsFromMap, ValidText, InfoOk, MetricsOk, IsNull, Utf8Size, MessageEntries;
    if DecodeValue(value).Decoded? {
      var m := DecodeValue(value).message;
      UseUtf8OfNothing();
      if !m.RegistrationResult? {
        ReadInfoOk(Value(value.fields, "system_info"));
        if m.DeviceSnapshot? && m.metrics.Some? {
          ReadMetricsOk(Value(value.fields, "metrics"));
        }
      }
      RoundTrip(m);
    }
  }

  lemma UseUtf8OfNothing()
    ensures Utf8Size("") == 0
  {
  }

  const KNOWN_KEYS := {"device_id", "instance_id", "type", "version", "display_name", "interval_s", "system_info",
                       "accepted", "reason", "sequence", "metrics"}

  /** Keys the protocol does not know are ignored. */
  lemma UnknownKeysAreIgnored(root: Fields, key: string, value: Cbor)
    requires key !in KNOWN_KEYS
    ensures DecodeValue(Map(root[key := value])) == DecodeValue(Map(root))
  {
    hide InfoFromMap, MetricsFromMap, ValidText, IsNull, Utf8Size;
    var more := root[key := value];
    forall k | k in KNOWN_KEYS ensures Value(more, k) == Value(root, k) {
    }
    assert "device_id" in KNOWN_KEYS && "instance_id" in KNOWN_KEYS && "type" in KNOWN_KEYS && "version" in KNOWN_KEYS;
    assert "display_name" in KNOWN_KEYS && "interval_s" in KNOWN_KEYS && "system_info" in KNOWN_KEYS;
    assert "accepted" in KNOWN_KEYS && "reason" in KNOWN_KEYS && "sequence" in KNOWN_KEYS && "metrics" in KNOWN_KEYS;
  }

  // --- Datagrams ------------------------------------------------------------

  /** A datagram comes back as the message it was made from exactly when it is neither empty nor too large. */
  lemma DatagramRoundTrip(codec: Codec, m: Message)
    requires MessageOk(m) && codec.Keeps(MessageValue(m))
    ensures DecodeMessage(codec, EncodeMessage(codec, m)) == Decoded(m)
      <==> 0 < |EncodeMessage(codec, m)| <= MAXIMUM_DATAGRAM_SIZE
  {
    hide Build, MessageEntries, MessageOk, DecodeValue;
    RoundTrip(m);
  }

  lemma SystemInfoRoundTrip(codec: Codec, info: SystemInfo)
    requires InfoOk(info) && codec.Keeps(Map(InfoToMap(info)))
    ensures DecodeSystemInfo(codec, EncodeSystemInfo(codec, info)) == Some(info)
  {
    hide InfoToMap, InfoFromMap, InfoOk;
    InfoBack(info);
  }

  lemma DatagramIsWellFormed(codec: Codec, bytes: seq<byte>)
    ensures DecodeMessage(codec, bytes).Decoded? ==> MessageOk(DecodeMessage(codec, bytes).message)
  {
    hide DecodeValue, MessageOk;
    if DecodeMessage(codec, bytes).Decoded? {
      AcceptedIsWellFormed(codec.parse(bytes).value);
    }
  }
}
