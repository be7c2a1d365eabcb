/**
 * From the daemon's bytes to the dashboard's message: what the encoder writes, a CBOR reader reads and the schema
 * parser accepts, is the message that was meant. How bytes become strings and bit patterns numbers is a parameter.
 */
module DaemonToDashboard {
  import opened Wrappers
  import opened CborBridge
  import opened CborFormat
  import D = DaemonMessages
  import E = CborEncoder
  import T = CborTheorems
  import opened TelemetryTypes
  import opened TelemetryRoundTrip
  import opened TelemetrySchema

  // --- Looking up the daemon's keys ---------------------------------------------

  lemma LiteralIsAscii(r: Reader, key: D.Key)
    requires r.ReadsAscii()
    ensures r.text(D.Name(key)) == D.Literal(key)
  {
    hide D.Ascii;
    assert forall c :: c in D.Literal(key) ==> c as int < 128;
  }

  lemma SameLiteral(a: D.Key, b: D.Key)
    requires D.Literal(a) == D.Literal(b)
    ensures a == b
  {
    hide D.Literal;
    D.NamesDiffer();
    assert D.Name(a) == D.Name(b);
  }

  lemma {:induction false} PresentedValue(r: Reader, fields: D.Fields, key: D.Key, n: nat)
    requires r.ReadsAscii() && D.OnlyNamed(fields) && n <= |fields|
    ensures var keys, item := E.KeyOrder(fields.Keys), T.Denote(E.Map(fields));
      && item.MapItem? && |item.pairs| == |fields| == |keys|
      && Value(PresentedFields(r, item, n), D.Literal(key))
         == if D.Name(key) in keys[..n] then Presented(r, T.Denote(fields[D.Name(key)])) else Undefined
    decreases n
  {
    hide E.KeyOrder, T.Denote, D.Name, D.Literal, Presented;
    var v := E.Map(fields);
    var keys, item := E.KeyOrder(fields.Keys), T.Denote(v);
    D.MapDenotesPairs(v);
    if n > 0 {
      PresentedValue(r, fields, key, n - 1);
      var k := keys[n - 1];
      assert k in keys;
      assert item.pairs[n - 1] == Pair(TextString(k), T.Denote(fields[k]));
      var other: D.Key :| k == D.Name(other);
      LiteralIsAscii(r, other);
      LiteralIsAscii(r, key);
      if D.Literal(other) == D.Literal(key) {
        SameLiteral(other, key);
      }
      assert keys[..n] == keys[..n - 1] + [k];
    }
  }

  /** What the schema parser finds under one of the nine keys. */
  lemma FoundField(r: Reader, fields: D.Fields, key: D.Key)
    requires r.ReadsAscii() && D.OnlyNamed(fields)
    ensures var root := Presented(r, T.Denote(E.Map(fields)));
      && root.Map?
      && Value(root.fields, D.Literal(key)) == PresentedOr(r, D.Lookup(fields, key))
  {
    hide E.KeyOrder, T.Denote, D.Name, D.Literal, PresentedFields;
    PresentedValue(r, fields, key, |fields|);
    var keys := E.KeyOrder(fields.Keys);
    assert keys[..|keys|] == keys;
    assert T.Denote(E.Map(fields)).MapItem?;
  }

  // --- The messages ---------------------------------------------------------------

  /** The root map as the schema parser sees it. */
  function Root(r: Reader, item: Item): Fields {
    if item.MapItem? then PresentedFields(r, item, |item.pairs|) else map[]
  }

  lemma HelloValue(r: Reader, displayName: seq<byte>, interval: uint64, device: Uuid, instance: Uuid, info: E.Value,
                   key: D.Key)
    requires r.ReadsAscii() && |displayName| < TWO_TO_THE_64 && E.Fits(info)
    ensures var item := T.Denote(E.Map(D.HelloFields(displayName, interval, device, instance, info)));
      && Presented(r, item) == Map(Root(r, item))
      && Value(Root(r, item), D.Literal(key))
         == PresentedOr(r, D.HelloField(displayName, interval, device, instance, info, key))
  {
    hide E.Encode, Decode, T.Denote, D.Ascii, D.Name;
    hide D.HelloFields, D.OnlyNamed, D.OnlyNamedKeys, D.HelloField, D.Field;
    hide PresentedFields, D.Lookup, D.Literal;
    var fields := D.HelloFields(displayName, interval, device, instance, info);
    D.HelloReads(displayName, interval, device, instance, info);
    FoundField(r, fields, key);
    D.HelloContents(displayName, interval, device, instance, info, key);
  }

  lemma SnapshotValue(r: Reader, interval: uint64, device: Uuid, instance: Uuid, sequence: uint64, info: E.Value,
                      metrics: Option<E.Value>, key: D.Key)
    requires r.ReadsAscii() && E.Fits(info) && (metrics.Some? ==> E.Fits(metrics.value))
    ensures var item := T.Denote(E.Map(D.SnapshotFields(interval, device, instance, sequence, info, metrics)));
      && Presented(r, item) == Map(Root(r, item))
      && Value(Root(r, item), D.Literal(key))
         == PresentedOr(r, D.SnapshotField(interval, device, instance, sequence, info, metrics, key))
  {
    hide E.Encode, Decode, T.Denote, D.Ascii, D.Name, D.SnapshotFields, D.OnlyNamed, D.OnlyNamedKeys, D.SnapshotField;
    hide PresentedFields, D.Lookup, D.Literal, D.Field;
    var fields := D.SnapshotFields(interval, device, instance, sequence, info, metrics);
    D.SnapshotReads(interval, device, instance, sequence, info, metrics);
    FoundField(r, fields, key);
    D.SnapshotContents(interval, device, instance, sequence, info, metrics, key);
  }

  /** The parser needs to find only these values to decode a hello. */
  lemma HelloDecodes(root: Fields, device: Uuid, instance: Uuid, name: string, interval: int32, raw: Cbor,
                     read: SystemInfo)
    requires Value(root, "type") == Text("hello") && Value(root, "version") == Integer(1)
    requires Value(root, "device_id") == ByteArray(device) && Value(root, "instance_id") == ByteArray(instance)
    requires Value(root, "display_name") == Text(name) && Value(root, "interval_s") == Integer(interval)
    requires Value(root, "system_info") == raw && InfoFromMap(raw) == Some(read)
    requires MessageOk(Hello(device, instance, name, interval, read))
    ensures DecodeValue(Map(root)) == Decoded(Hello(device, instance, name, interval, read))
  {
    hide InfoFromMap, ValidText, IsNull, InfoOk;
  }

  lemma SnapshotDecodes(root: Fields, device: Uuid, instance: Uuid, interval: int32, sequence: uint64, raw: Cbor,
                        read: SystemInfo, readMetrics: Option<SystemMetrics>)
    requires Value(root, "type") == Text("snapshot") && Value(root, "version") == Integer(1)
    requires Value(root, "device_id") == ByteArray(device) && Value(root, "instance_id") == ByteArray(instance)
    requires sequence <= MAX_INTEGER
    requires Value(root, "interval_s") == Integer(interval) && Value(root, "sequence") == Integer(sequence)
    requires Value(root, "system_info") == raw && InfoFromMap(raw) == Some(read)
    requires if readMetrics.Some? then
        !Value(root, "metrics").Undefined? && MetricsFromMap(Value(root, "metrics")) == readMetrics
      else Value(root, "metrics") == Undefined
    requires MessageOk(DeviceSnapshot(device, instance, interval, sequence, read, readMetrics))
    ensures DecodeValue(Map(root)) == Decoded(DeviceSnapshot(device, instance, interval, sequence, read, readMetrics))
  {
    hide InfoFromMap, MetricsFromMap, IsNull, InfoOk, MetricsOk;
  }

  /** What the dashboard finds under each key of a hello. */
  ghost function HelloFinds(r: Reader, displayName: seq<byte>, interval: uint64, device: Uuid, instance: Uuid,
                            info: E.Value, key: D.Key): Cbor
    requires interval <= MAX_INTEGER
  {
    match key
    case Kind => Text("hello")
    case Version => Integer(1)
    case DeviceId => ByteArray(device)
    case InstanceId => ByteArray(instance)
    case DisplayName => Text(r.text(displayName))
    case Interval => Integer(interval)
    case SystemInfo => Presented(r, T.Denote(info))
    case _ => Undefined
  }

  lemma HelloFound(r: Reader, displayName: seq<byte>, interval: uint64, device: Uuid, instance: Uuid, info: E.Value,
                   key: D.Key)
    requires r.ReadsAscii() && interval <= 5
    ensures PresentedOr(r, D.HelloField(displayName, interval, device, instance, info, key))
         == HelloFinds(r, displayName, interval, device, instance, info, key)
  {
    hide T.Denote, D.Ascii;
    if key == D.Kind {
      KindIsAscii(r);
    }
  }

  lemma KindIsAscii(r: Reader)
    requires r.ReadsAscii()
    ensures r.text(D.Ascii("hello")) == "hello" && r.text(D.Ascii("snapshot")) == "snapshot"
  {
    hide D.Ascii;
    assert forall c :: c in "hello" ==> c as int < 128;
    assert forall c :: c in "snapshot" ==> c as int < 128;
  }

  /** What the dashboard finds under each key of a snapshot. */
  ghost function SnapshotFinds(r: Reader, interval: uint64, device: Uuid, instance: Uuid, sequence: uint64,
                               info: E.Value, metrics: Option<E.Value>, key: D.Key): Cbor
    requires interval <= MAX_INTEGER && sequence <= MAX_INTEGER
  {
    match key
    case Kind => Text("snapshot")
    case Version => Integer(1)
    case DeviceId => ByteArray(device)
    case InstanceId => ByteArray(instance)
    case Interval => Integer(interval)
    case Sequence => Integer(sequence)
    case SystemInfo => Presented(r, T.Denote(info))
    case Metrics => if metrics.Some? then Presented(r, T.Denote(metrics.value)) else Undefined
    case _ => Undefined
  }

  lemma SnapshotFound(r: Reader, interval: uint64, device: Uuid, instance: Uuid, sequence: uint64, info: E.Value,
                      metrics: Option<E.Value>, key: D.Key)
    requires r.ReadsAscii() && interval <= 5 && sequence <= MAX_INTEGER
    ensures PresentedOr(r, D.SnapshotField(interval, device, instance, sequence, info, metrics, key))
         == SnapshotFinds(r, interval, device, instance, sequence, info, metrics, key)
  {
    hide T.Denote, D.Ascii;
    if key == D.Kind {
      KindIsAscii(r);
    }
  }

  lemma HelloRoot(r: Reader, displayName: seq<byte>, interval: uint64, device: Uuid, instance: Uuid, info: E.Value,
                  key: D.Key)
    requires r.ReadsAscii() && |displayName| < TWO_TO_THE_64 && E.Fits(info) && interval <= 5
    ensures var item := T.Denote(E.Map(D.HelloFields(displayName, interval, device, instance, info)));
      && Presented(r, item) == Map(Root(r, item))
      && Value(Root(r, item), D.Literal(key)) == HelloFinds(r, displayName, interval, device, instance, info, key)
  {
    hide *;
    HelloValue(r, displayName, interval, device, instance, info, key);
    HelloFound(r, displayName, interval, device, instance, info, key);
  }

  lemma SnapshotRoot(r: Reader, interval: uint64, device: Uuid, instance: Uuid, sequence: uint64, info: E.Value,
                     metrics: Option<E.Value>, key: D.Key)
    requires r.ReadsAscii() && E.Fits(info) && (metrics.Some? ==> E.Fits(metrics.value)) && interval <= 5
    requires sequence <= MAX_INTEGER
    ensures var item := T.Denote(E.Map(D.SnapshotFields(interval, device, instance, sequence, info, metrics)));
      && Presented(r, item) == Map(Root(r, item))
      && Value(Root(r, item), D.Literal(key))
         == SnapshotFinds(r, interval, device, instance, sequence, info, metrics, key)
  {
    hide *;
    SnapshotValue(r, interval, device, instance, sequence, info, metrics, key);
    SnapshotFound(r, interval, device, instance, sequence, info, metrics, key);
  }

  lemma HelloMeans(r: Reader, displayName: seq<byte>, interval: uint64, device: Uuid, instance: Uuid, info: E.Value,
                   read: SystemInfo)
    requires r.ReadsAscii() && |displayName| < TWO_TO_THE_64 && E.Fits(info) && interval <= 5
    requires InfoFromMap(Presented(r, T.Denote(info))) == Some(read)
    requires MessageOk(Hello(device, instance, r.text(displayName), interval, read))
    ensures DecodeValue(Presented(r, T.Denote(E.Map(D.HelloFields(displayName, interval, device, instance, info)))))
         == Decoded(Hello(device, instance, r.text(displayName), interval, read))
  {
    hide T.Denote, D.HelloFields, Root, Presented, InfoFromMap;
    hide MessageOk, DecodeValue, Value, Reader.ReadsAscii, E.Fits;
    var root := Root(r, T.Denote(E.Map(D.HelloFields(displayName, interval, device, instance, info))));
    HelloRoot(r, displayName, interval, device, instance, info, D.Kind);
    HelloRoot(r, displayName, interval, device, instance, info, D.Version);
    HelloRoot(r, displayName, interval, device, instance, info, D.DeviceId);
    HelloRoot(r, displayName, interval, device, instance, info, D.InstanceId);
    HelloRoot(r, displayName, interval, device, instance, info, D.DisplayName);
    HelloRoot(r, displayName, interval, device, instance, info, D.Interval);
    HelloRoot(r, displayName, interval, device, instance, info, D.SystemInfo);
    HelloDecodes(root, device, instance, r.text(displayName), interval, Presented(r, T.Denote(info)), read);
  }

  lemma SnapshotMeans(r: Reader, interval: uint64, device: Uuid, instance: Uuid, sequence: uint64, info: E.Value,
                      metrics: Option<E.Value>, read: SystemInfo, readMetrics: Option<SystemMetrics>)
    requires r.ReadsAscii() && E.Fits(info) && (metrics.Some? ==> E.Fits(metrics.value)) && interval <= 5
    requires InfoFromMap(Presented(r, T.Denote(info))) == Some(read)
    requires metrics.Some? <==> readMetrics.Some?
    requires metrics.Some? ==> MetricsFromMap(Presented(r, T.Denote(metrics.value))) == readMetrics
    requires MessageOk(DeviceSnapshot(device, instance, interval, sequence, read, readMetrics))
    ensures var fields := D.SnapshotFields(interval, device, instance, sequence, info, metrics);
      DecodeValue(Presented(r, T.Denote(E.Map(fields))))
         == Decoded(DeviceSnapshot(device, instance, interval, sequence, read, readMetrics))
  {
    hide T.Denote, D.SnapshotFields, Root, Presented, InfoFromMap;
    hide MetricsFromMap, MessageOk, DecodeValue, Value, E.Fits;
    hide Reader.ReadsAscii;
    var root := Root(r, T.Denote(E.Map(D.SnapshotFields(interval, device, instance, sequence, info, metrics))));
    SequenceFits(DeviceSnapshot(device, instance, interval, sequence, read, readMetrics));
    SnapshotRoot(r, interval, device, instance, sequence, info, metrics, D.Kind);
    SnapshotRoot(r, interval, device, instance, sequence, info, metrics, D.Version);
    SnapshotRoot(r, interval, device, instance, sequence, info, metrics, D.DeviceId);
    SnapshotRoot(r, interval, device, instance, sequence, info, metrics, D.InstanceId);
    SnapshotRoot(r, interval, device, instance, sequence, info, metrics, D.Interval);
    SnapshotRoot(r, interval, device, instance, sequence, info, metrics, D.Sequence);
    SnapshotRoot(r, interval, device, instance, sequence, info, metrics, D.SystemInfo);
    SnapshotRoot(r, interval, device, instance, sequence, info, metrics, D.Metrics);
    if metrics.Some? {
      MetricsAreAMap(Presented(r, T.Denote(metrics.value)));
    }
    SnapshotDecodes(root, device, instance, interval, sequence, Presented(r, T.Denote(info)), read, readMetrics);
  }

  lemma HelloReadsAs(r: Reader, displayName: seq<byte>, interval: uint64, device: Uuid, instance: Uuid, info: E.Value,
                          read: SystemInfo)
    requires r.ReadsAscii() && |displayName| < TWO_TO_THE_64 && E.Fits(info) && interval <= 5
    requires InfoFromMap(Presented(r, T.Denote(info))) == Some(read)
    requires MessageOk(Hello(device, instance, r.text(displayName), interval, read))
    ensures var bytes := E.Encode(E.Map(D.HelloFields(displayName, interval, device, instance, info)));
      && Decode(bytes).Some? && Decode(bytes).value.1 == []
      && DecodeValue(Presented(r, Decode(bytes).value.0))
         == Decoded(Hello(device, instance, r.text(displayName), interval, read))
  {
    hide *;
    D.HelloReads(displayName, interval, device, instance, info);
    HelloMeans(r, displayName, interval, device, instance, info, read);
  }

  lemma SnapshotReadsAs(r: Reader, interval: uint64, device: Uuid, instance: Uuid, sequence: uint64, info: E.Value,
                             metrics: Option<E.Value>, read: SystemInfo, readMetrics: Option<SystemMetrics>)
    requires r.ReadsAscii() && E.Fits(info) && (metrics.Some? ==> E.Fits(metrics.value)) && interval <= 5
    requires InfoFromMap(Presented(r, T.Denote(info))) == Some(read)
    requires metrics.Some? <==> readMetrics.Some?
    requires metrics.Some? ==> MetricsFromMap(Presented(r, T.Denote(metrics.value))) == readMetrics
    requires MessageOk(DeviceSnapshot(device, instance, interval, sequence, read, readMetrics))
    ensures var bytes := E.Encode(E.Map(D.SnapshotFields(interval, device, instance, sequence, info, metrics)));
      && Decode(bytes).Some? && Decode(bytes).value.1 == []
      && DecodeValue(Presented(r, Decode(bytes).value.0))
         == Decoded(DeviceSnapshot(device, instance, interval, sequence, read, readMetrics))
  {
    hide *;
    D.SnapshotReads(interval, device, instance, sequence, info, metrics);
    SnapshotMeans(r, interval, device, instance, sequence, info, metrics, read, readMetrics);
  }

  lemma SequenceFits(m: Message)
    requires MessageOk(m) && m.DeviceSnapshot?
    ensures m.sequence <= MAX_INTEGER
  {
    hide InfoOk, MetricsOk, IsNull;
  }

  lemma MetricsAreAMap(value: Cbor)
    requires MetricsFromMap(value).Some?
    ensures !value.Undefined?
  {
  }

  // --- System information and metrics --------------------------------------------------

  /** The value is of a kind the daemon writes, and its numbers are doubles. */
  ghost predicate Carries(r: Reader, w: Writer, c: Cbor) {
    Printable(c) && NumbersSurvive(r, w, c)
  }

  ghost predicate EntryCarries(r: Reader, w: Writer, e: Entry) {
    e.value.Some? ==> Carries(r, w, e.value.value)
  }

  ghost predicate EntriesCarry(r: Reader, w: Writer, entries: seq<Entry>) {
    forall e :: e in entries ==> EntryCarries(r, w, e)
  }

  lemma {:induction false} BuildCarries(r: Reader, w: Writer, entries: seq<Entry>)
    requires EntriesCarry(r, w, entries)
    ensures Carries(r, w, Map(Build(entries)))
  {
    if entries != [] {
      var front, last := entries[..|entries| - 1], entries[|entries| - 1];
      BuildCarries(r, w, front);
      assert last in entries;
    }
  }

  /** Unless the number is left out, its bits are those of a double. */
  predicate OptionSurvives(r: Reader, w: Writer, x: Option<Double>) {
    x.Some? ==> Survives(r, w, x.value)
  }

  /** So are all the numbers of these metrics. */
  ghost predicate MetricsSurvive(r: Reader, w: Writer, m: SystemMetrics) {
    && OptionSurvives(r, w, m.cpu.usageRatio) && OptionSurvives(r, w, m.cpu.temperature)
    && (forall c :: c in m.cpu.logicalCpus ==> OptionSurvives(r, w, c.usageRatio))
    && OptionSurvives(r, w, m.system.uptime) && OptionSurvives(r, w, m.system.load1)
    && OptionSurvives(r, w, m.system.load5) && OptionSurvives(r, w, m.system.load15)
    && (forall n :: n in m.interfaces ==> OptionSurvives(r, w, n.receiveRate) && OptionSurvives(r, w, n.sendRate))
    && (forall g :: g in m.gpus ==> OptionSurvives(r, w, g.usageRatio) && OptionSurvives(r, w, g.temperature))
  }

  lemma SectionCarries(r: Reader, w: Writer, key: string, entries: seq<Entry>)
    requires EntriesCarry(r, w, entries)
    ensures EntryCarries(r, w, SectionEntry(key, Build(entries)))
  {
    hide Build;
    BuildCarries(r, w, entries);
  }

  lemma InfoCarries(r: Reader, w: Writer, info: SystemInfo)
    ensures Carries(r, w, Map(InfoToMap(info)))
  {
    hide Build, Carries, HostEntries, OsEntries;
    hide KernelEntries, HardwareEntries, CpuEntries, MemoryEntries, SectionEntry;
    PlatformCarries(r, w, info);
    HardwareCarries(r, w, info.hardware);
    CapacityCarries(r, w, info);
    BuildCarries(r, w, InfoEntries(info));
  }

  lemma PlatformCarries(r: Reader, w: Writer, info: SystemInfo)
    ensures EntryCarries(r, w, SectionEntry("host", Build(HostEntries(info.host))))
    ensures EntryCarries(r, w, SectionEntry("os", Build(OsEntries(info.os))))
    ensures EntryCarries(r, w, SectionEntry("kernel", Build(KernelEntries(info.kernel))))
  {
    hide Build;
    SectionCarries(r, w, "host", HostEntries(info.host));
    SectionCarries(r, w, "os", OsEntries(info.os));
    SectionCarries(r, w, "kernel", KernelEntries(info.kernel));
  }

  lemma CapacityCarries(r: Reader, w: Writer, info: SystemInfo)
    ensures EntryCarries(r, w, SectionEntry("cpu", Build(CpuEntries(info.cpu))))
    ensures EntryCarries(r, w, SectionEntry("memory", Build(MemoryEntries(info.memory))))
  {
    hide Build;
    SectionCarries(r, w, "cpu", CpuEntries(info.cpu));
    SectionCarries(r, w, "memory", MemoryEntries(info.memory));
  }

  lemma HardwareCarries(r: Reader, w: Writer, h: Hardware)
    ensures EntryCarries(r, w, SectionEntry("hardware", Build(HardwareEntries(h))))
  {
    hide Build;
    if h.compatibleIds.Some? {
      TextsCarry(r, w, h.compatibleIds.value);
    }
    SectionCarries(r, w, "hardware", HardwareEntries(h));
  }

  lemma TextsCarry(r: Reader, w: Writer, texts: seq<string>)
    ensures Carries(r, w, Array(Texts(texts)))
  {
  }

  lemma ListCarries<E>(r: Reader, w: Writer, key: string, list: seq<E>, toMap: E -> Fields)
    requires forall i :: 0 <= i < |list| ==> Carries(r, w, Map(toMap(list[i])))
    ensures EntryCarries(r, w, ListEntry(key, Printed(list, toMap)))
  {
  }

  lemma CpuMetricsCarry(r: Reader, w: Writer, m: SystemMetrics)
    requires MetricsSurvive(r, w, m)
    ensures EntryCarries(r, w, SectionEntry("cpu", Build(CpuMetricsEntries(m.cpu))))
  {
    hide Build, LogicalCpuToMap;
    forall i | 0 <= i < |m.cpu.logicalCpus| ensures Carries(r, w, Map(LogicalCpuToMap(m.cpu.logicalCpus[i]))) {
      LogicalCpuCarries(r, w, m.cpu.logicalCpus[i]);
    }
    ListCarries(r, w, "logical_cpus", m.cpu.logicalCpus, LogicalCpuToMap);
    SectionCarries(r, w, "cpu", CpuMetricsEntries(m.cpu));
  }

  lemma LogicalCpuCarries(r: Reader, w: Writer, c: LogicalCpu)
    requires OptionSurvives(r, w, c.usageRatio)
    ensures Carries(r, w, Map(LogicalCpuToMap(c)))
  {
    hide Build;
    BuildCarries(r, w, LogicalCpuEntries(c));
  }

  lemma VolumesCarry(r: Reader, w: Writer, list: seq<StorageVolume>)
    ensures EntryCarries(r, w, ListEntry("storage_volumes", Printed(list, VolumeToMap)))
  {
    hide Build;
    forall i | 0 <= i < |list| ensures Carries(r, w, Map(VolumeToMap(list[i]))) {
      BuildCarries(r, w, VolumeEntries(list[i]));
    }
    ListCarries(r, w, "storage_volumes", list, VolumeToMap);
  }

  lemma InterfacesCarry(r: Reader, w: Writer, list: seq<NetworkInterface>)
    requires forall n :: n in list ==> OptionSurvives(r, w, n.receiveRate) && OptionSurvives(r, w, n.sendRate)
    ensures EntryCarries(r, w, ListEntry("network_interfaces", Printed(list, InterfaceToMap)))
  {
    hide Build;
    forall i | 0 <= i < |list| ensures Carries(r, w, Map(InterfaceToMap(list[i]))) {
      assert list[i] in list;
      BuildCarries(r, w, InterfaceEntries(list[i]));
    }
    ListCarries(r, w, "network_interfaces", list, InterfaceToMap);
  }

  lemma GpusCarry(r: Reader, w: Writer, list: seq<Gpu>)
    requires forall g :: g in list ==> OptionSurvives(r, w, g.usageRatio) && OptionSurvives(r, w, g.temperature)
    ensures EntryCarries(r, w, ListEntry("gpus", Printed(list, GpuToMap)))
  {
    hide Build;
    forall i | 0 <= i < |list| ensures Carries(r, w, Map(GpuToMap(list[i]))) {
      assert list[i] in list;
      BuildCarries(r, w, GpuEntries(list[i]));
    }
    ListCarries(r, w, "gpus", list, GpuToMap);
  }

  lemma MetricsCarry(r: Reader, w: Writer, m: SystemMetrics)
    requires MetricsSurvive(r, w, m)
    ensures Carries(r, w, Map(MetricsToMap(m)))
  {
    hide Build, Printed, Carries;
    CpuMetricsCarry(r, w, m);
    PlainSectionsCarry(r, w, m);
    VolumesCarry(r, w, m.volumes);
    InterfacesCarry(r, w, m.interfaces);
    GpusCarry(r, w, m.gpus);
    BuildCarries(r, w, MetricsEntries(m));
  }

  lemma PlainSectionsCarry(r: Reader, w: Writer, m: SystemMetrics)
    requires MetricsSurvive(r, w, m)
    ensures EntriesCarry(r, w, [SectionEntry("memory", Build(MemoryMetricsEntries(m.memory))),
                                SectionEntry("system", Build(SystemLoadEntries(m.system)))])
  {
    hide Build;
    SectionCarries(r, w, "memory", MemoryMetricsEntries(m.memory));
    SectionCarries(r, w, "system", SystemLoadEntries(m.system));
  }

  // --- From bytes to the message --------------------------------------------------------

  lemma InfoArrives(r: Reader, w: Writer, info: SystemInfo)
    requires Matched(r, w) && InfoOk(info)
    ensures InfoFromMap(Presented(r, T.Denote(Written(w, Map(InfoToMap(info)))))) == Some(info)
  {
    hide T.Denote, Presented, Written, InfoToMap, InfoFromMap, InfoOk, Printable, NumbersSurvive;
    InfoCarries(r, w, info);
    ReadingUndoesWriting(r, w, Map(InfoToMap(info)));
    InfoBack(info);
  }

  lemma MetricsArrive(r: Reader, w: Writer, m: SystemMetrics)
    requires Matched(r, w) && MetricsOk(m) && MetricsSurvive(r, w, m)
    ensures MetricsFromMap(Presented(r, T.Denote(Written(w, Map(MetricsToMap(m)))))) == Some(m)
  {
    hide T.Denote, Presented, Written, MetricsToMap;
    hide MetricsFromMap, MetricsOk, Printable, NumbersSurvive, MetricsSurvive;
    MetricsCarry(r, w, m);
    ReadingUndoesWriting(r, w, Map(MetricsToMap(m)));
    MetricsBack(m);
  }

  /** The daemon's value for well-formed system information, and for metrics if there are any. */
  ghost function WrittenInfo(w: Writer, info: SystemInfo): E.Value
    requires w.KeepsTexts()
  {
    Written(w, Map(InfoToMap(info)))
  }

  ghost function WrittenMetrics(w: Writer, metrics: Option<SystemMetrics>): Option<E.Value>
    requires w.KeepsTexts()
  {
    if metrics.Some? then Some(Written(w, Map(MetricsToMap(metrics.value)))) else None
  }

  lemma ContentsOk(m: Message)
    requires MessageOk(m)
    ensures m.Hello? || m.DeviceSnapshot? ==> InfoOk(m.info)
    ensures m.DeviceSnapshot? && m.metrics.Some? ==> MetricsOk(m.metrics.value)
  {
    hide InfoOk, MetricsOk, IsNull;
  }

  /**
   * A hello in which the daemon writes well-formed system information arrives as exactly the message it meant: its
   * bytes are read, the values presented to the parser, and all of it accepted.
   */
  lemma HelloIsUnderstood(r: Reader, w: Writer, displayName: seq<byte>, interval: uint64, device: Uuid, instance: Uuid,
                          info: SystemInfo)
    requires r.ReadsAscii() && Matched(r, w) && interval <= 5
    requires |displayName| < TWO_TO_THE_64 && E.Fits(WrittenInfo(w, info))
    requires MessageOk(Hello(device, instance, r.text(displayName), interval, info))
    ensures var bytes := E.Encode(E.Map(D.HelloFields(displayName, interval, device, instance, WrittenInfo(w, info))));
      && Decode(bytes).Some? && Decode(bytes).value.1 == []
      && DecodeValue(Presented(r, Decode(bytes).value.0))
         == Decoded(Hello(device, instance, r.text(displayName), interval, info))
  {
    hide E.Encode, Decode, D.HelloFields, DecodeValue, Presented, MessageOk, Written, InfoToMap, InfoFromMap, E.Fits;
    hide Reader.ReadsAscii, T.Denote;
    ContentsOk(Hello(device, instance, r.text(displayName), interval, info));
    InfoArrives(r, w, info);
    HelloReadsAs(r, displayName, interval, device, instance, WrittenInfo(w, info), info);
  }

  /** So does a snapshot, with or without metrics, when the numbers in them are doubles. */
  lemma SnapshotIsUnderstood(r: Reader, w: Writer, interval: uint64, device: Uuid, instance: Uuid, sequence: uint64,
                             info: SystemInfo, metrics: Option<SystemMetrics>)
    requires r.ReadsAscii() && Matched(r, w) && interval <= 5 && E.Fits(WrittenInfo(w, info))
    requires metrics.Some? ==> MetricsSurvive(r, w, metrics.value) && E.Fits(WrittenMetrics(w, metrics).value)
    requires MessageOk(DeviceSnapshot(device, instance, interval, sequence, info, metrics))
    ensures var fields :=
        D.SnapshotFields(interval, device, instance, sequence, WrittenInfo(w, info), WrittenMetrics(w, metrics));
      var bytes := E.Encode(E.Map(fields));
      && Decode(bytes).Some? && Decode(bytes).value.1 == []
      && DecodeValue(Presented(r, Decode(bytes).value.0))
         == Decoded(DeviceSnapshot(device, instance, interval, sequence, info, metrics))
  {
    hide E.Encode, Decode, D.SnapshotFields, DecodeValue, Presented, MessageOk, Written, InfoToMap, InfoFromMap, E.Fits;
    hide Reader.ReadsAscii, T.Denote, MetricsToMap, MetricsFromMap, MetricsSurvive;
    ContentsOk(DeviceSnapshot(device, instance, interval, sequence, info, metrics));
    InfoArrives(r, w, info);
    if metrics.Some? {
      MetricsArrive(r, w, metrics.value);
    }
    SnapshotReadsAs(
      r, interval, device, instance, sequence, WrittenInfo(w, info), WrittenMetrics(w, metrics), info, metrics);
  }
}
