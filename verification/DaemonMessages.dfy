/** The daemon's two messages (daemon/src/daemon.cpp) and what any reader of CBOR finds in them. */
module DaemonMessages {
  import opened Wrappers
  import opened CborFormat
  import opened CborEncoder
  import opened CborTheorems
  import TelemetryTypes

  /** The bytes of a plain ASCII literal. */
  function Ascii(s: string): (r: seq<byte>)
    ensures |r| == |s|
  {
    seq(|s|, i requires 0 <= i < |s| => s[i] as int % 128)
  }

  type Uuid = TelemetryTypes.Uuid

  /** The keys of the top-level map. */
  datatype Key =
    | DeviceId | InstanceId | Kind | Version | DisplayName | Interval | Sequence | SystemInfo | Metrics

  function Literal(key: Key): string {
    match key
    case DeviceId => "device_id"
    case InstanceId => "instance_id"
    case Kind => "type"
    case Version => "version"
    case DisplayName => "display_name"
    case Interval => "interval_s"
    case Sequence => "sequence"
    case SystemInfo => "system_info"
    case Metrics => "metrics"
  }

  function Name(key: Key): seq<byte> {
    Ascii(Literal(key))
  }

  lemma NamesDiffer()
    ensures forall a, b :: Name(a) == Name(b) ==> a == b
    ensures forall a :: |Name(a)| < 16
  {
    assert Name(InstanceId)[0] == 'i' as int % 128 && Name(SystemInfo)[0] == 's' as int % 128;
    assert Name(Version)[0] == 'v' as int % 128 && Name(Metrics)[0] == 'm' as int % 128;
  }

  // --- Building the messages ------------------------------------------------

  type Fields = map<seq<byte>, Value>

  /** `v.map[key] = value`. */
  function Put(fields: Fields, key: Key, value: Value): Fields {
    fields[Name(key) := value]
  }

  function Envelope(kind: string, device: Uuid, instance: Uuid): Fields {
    Put(Put(Put(Put(map[],
      DeviceId, Bytes(device)),
      InstanceId, Bytes(instance)),
      Kind, Text(Ascii(kind))),
      Version, Unsigned(1))
  }

  function HelloFields(displayName: seq<byte>, interval: uint64, device: Uuid, instance: Uuid, info: Value): Fields {
    Put(Put(Put(Envelope("hello", device, instance),
                DisplayName, Text(displayName)), Interval, Unsigned(interval)), SystemInfo, info)
  }

  function SnapshotFields(interval: uint64, device: Uuid, instance: Uuid, sequence: uint64, info: Value,
                          metrics: Option<Value>): Fields
  {
    var fields := Put(Put(Put(Envelope("snapshot", device, instance),
                              Interval, Unsigned(interval)), Sequence, Unsigned(sequence)), SystemInfo, info);
    if metrics.Some? then Put(fields, Metrics, metrics.value) else fields
  }

  method Hello(displayName: seq<byte>, interval: uint64, device: Uuid, instance: Uuid, info: Value)
    returns (bytes: seq<byte>)
    requires |displayName| < TWO_TO_THE_64 && Fits(info)
    ensures bytes == Encode(Map(HelloFields(displayName, interval, device, instance, info)))
    ensures Decode(bytes).Some? && Decode(bytes).value.1 == [] && OnlyNamedKeys(Decode(bytes).value.0)
    ensures forall key :: Field(Decode(bytes).value.0, Name(key))
                       == HelloField(displayName, interval, device, instance, info, key)
  {
    hide Encode, Decode, Field, Name, Ascii, HelloField, OnlyNamedKeys;
    var fields := Envelope("hello", device, instance);
    fields := Put(fields, DisplayName, Text(displayName));
    fields := Put(fields, Interval, Unsigned(interval));
    fields := Put(fields, SystemInfo, info);
    HelloReads(displayName, interval, device, instance, info);
    bytes := Cbor(Map(fields));
  }

  method Snapshot(interval: uint64, device: Uuid, instance: Uuid, sequence: uint64, info: Value, metrics: Option<Value>)
    returns (bytes: seq<byte>)
    requires Fits(info) && (metrics.Some? ==> Fits(metrics.value))
    ensures bytes == Encode(Map(SnapshotFields(interval, device, instance, sequence, info, metrics)))
    ensures Decode(bytes).Some? && Decode(bytes).value.1 == [] && OnlyNamedKeys(Decode(bytes).value.0)
    ensures forall key :: Field(Decode(bytes).value.0, Name(key))
                       == SnapshotField(interval, device, instance, sequence, info, metrics, key)
  {
    hide Encode, Decode, Field, Name, Ascii, SnapshotField, OnlyNamedKeys;
    var fields := Envelope("snapshot", device, instance);
    fields := Put(fields, Interval, Unsigned(interval));
    fields := Put(fields, Sequence, Unsigned(sequence));
    fields := Put(fields, SystemInfo, info);
    if metrics.Some? {
      fields := Put(fields, Metrics, metrics.value);
    }
    SnapshotReads(interval, device, instance, sequence, info, metrics);
    bytes := Cbor(Map(fields));
  }

  lemma HelloReads(displayName: seq<byte>, interval: uint64, device: Uuid, instance: Uuid, info: Value)
    requires |displayName| < TWO_TO_THE_64 && Fits(info)
    ensures var v := Map(HelloFields(displayName, interval, device, instance, info));
      && Fits(v) && OnlyNamed(v.fields) && Decode(Encode(v)) == Some((Denote(v), [])) && OnlyNamedKeys(Denote(v))
      && forall key :: Field(Denote(v), Name(key)) == HelloField(displayName, interval, device, instance, info, key)
  {
    hide Encode, Decode, Denote, Field, Name, Ascii, Put, Envelope, HelloField, OnlyNamed, OnlyNamedKeys;
    var f0 := Envelope("hello", device, instance);
    var f1 := Put(f0, DisplayName, Text(displayName));
    var f2 := Put(f1, Interval, Unsigned(interval));
    var fields := Put(f2, SystemInfo, info);
    EnvelopeFits("hello", device, instance);
    PutFits(f0, DisplayName, Text(displayName));
    PutFits(f1, Interval, Unsigned(interval));
    PutFits(f2, SystemInfo, info);
    ReadBack(fields);
    NamedFieldsNamedKeys(fields);
    forall key ensures Field(Denote(Map(fields)), Name(key))
                    == HelloField(displayName, interval, device, instance, info, key) {
      HelloContents(displayName, interval, device, instance, info, key);
      FieldOfMap(fields, Name(key));
    }
  }

  lemma SnapshotReads(interval: uint64, device: Uuid, instance: Uuid, sequence: uint64, info: Value,
                      metrics: Option<Value>)
    requires Fits(info) && (metrics.Some? ==> Fits(metrics.value))
    ensures var v := Map(SnapshotFields(interval, device, instance, sequence, info, metrics));
      && Fits(v) && OnlyNamed(v.fields) && Decode(Encode(v)) == Some((Denote(v), [])) && OnlyNamedKeys(Denote(v))
      && forall key ::
           Field(Denote(v), Name(key)) == SnapshotField(interval, device, instance, sequence, info, metrics, key)
  {
    hide Encode, Decode, Denote, Field, Name, Ascii, Put, Envelope, SnapshotField, OnlyNamed, OnlyNamedKeys;
    var f0 := Envelope("snapshot", device, instance);
    var f1 := Put(f0, Interval, Unsigned(interval));
    var f2 := Put(f1, Sequence, Unsigned(sequence));
    var f3 := Put(f2, SystemInfo, info);
    var fields := SnapshotFields(interval, device, instance, sequence, info, metrics);
    EnvelopeFits("snapshot", device, instance);
    PutFits(f0, Interval, Unsigned(interval));
    PutFits(f1, Sequence, Unsigned(sequence));
    PutFits(f2, SystemInfo, info);
    if metrics.Some? {
      PutFits(f3, Metrics, metrics.value);
    }
    ReadBack(fields);
    NamedFieldsNamedKeys(fields);
    forall key ensures Field(Denote(Map(fields)), Name(key))
                    == SnapshotField(interval, device, instance, sequence, info, metrics, key) {
      SnapshotContents(interval, device, instance, sequence, info, metrics, key);
      FieldOfMap(fields, Name(key));
    }
  }

  /** Every key is one of the nine. */
  ghost predicate OnlyNamed(fields: Fields) {
    forall k :: k in fields ==> exists key :: k == Name(key)
  }

  /** A map item whose keys are texts, each one of the nine. */
  ghost predicate OnlyNamedKeys(item: Item) {
    item.MapItem? && forall p :: p in item.pairs ==> p.key.TextString? && exists key :: p.key.text == Name(key)
  }

  lemma NamedFieldsNamedKeys(fields: Fields)
    requires Fits(Map(fields)) && OnlyNamed(fields)
    ensures OnlyNamedKeys(Denote(Map(fields)))
  {
    hide KeyOrder, Name, Denote;
    var v := Map(fields);
    MapDenotesPairs(v);
    var keys, pairs := KeyOrder(fields.Keys), DenotedPairs(v);
    forall p | p in pairs ensures p.key.TextString? && exists key :: p.key.text == Name(key) {
      var i :| 0 <= i < |pairs| && pairs[i] == p;
      assert keys[i] in keys && p == Pair(TextString(keys[i]), Denote(fields[keys[i]]));
    }
  }

  /** What a reader finds in a hello, key by key. */
  ghost function HelloField(displayName: seq<byte>, interval: uint64, device: Uuid, instance: Uuid, info: Value,
                            key: Key): Option<Item>
  {
    match key
    case Kind => Some(TextString(Ascii("hello")))
    case Version => Some(UnsignedInteger(1))
    case DeviceId => Some(ByteString(device))
    case InstanceId => Some(ByteString(instance))
    case DisplayName => Some(TextString(displayName))
    case Interval => Some(UnsignedInteger(interval))
    case SystemInfo => Some(Denote(info))
    case Sequence => None
    case Metrics => None
  }

  /** What a reader finds in a snapshot, key by key. */
  ghost function SnapshotField(interval: uint64, device: Uuid, instance: Uuid, sequence: uint64, info: Value,
                               metrics: Option<Value>, key: Key): Option<Item>
  {
    match key
    case Kind => Some(TextString(Ascii("snapshot")))
    case Version => Some(UnsignedInteger(1))
    case DeviceId => Some(ByteString(device))
    case InstanceId => Some(ByteString(instance))
    case DisplayName => None
    case Interval => Some(UnsignedInteger(interval))
    case SystemInfo => Some(Denote(info))
    case Sequence => Some(UnsignedInteger(sequence))
    case Metrics => if metrics.Some? then Some(Denote(metrics.value)) else None
  }

  ghost function Lookup(fields: Fields, key: Key): Option<Item> {
    if Name(key) in fields then Some(Denote(fields[Name(key)])) else None
  }

  lemma LookupPut(fields: Fields, at: Key, value: Value, key: Key)
    ensures Lookup(Put(fields, at, value), key) == if key == at then Some(Denote(value)) else Lookup(fields, key)
  {
    hide Name, Denote;
    NamesDiffer();
  }

  lemma EnvelopeContents(kind: string, device: Uuid, instance: Uuid, key: Key)
    ensures Lookup(Envelope(kind, device, instance), key)
         == (match key
             case Kind => Some(TextString(Ascii(kind)))
             case Version => Some(UnsignedInteger(1))
             case DeviceId => Some(ByteString(device))
             case InstanceId => Some(ByteString(instance))
             case _ => None)
  {
    hide Name, Put, Ascii;
    var f1 := Put(map[], DeviceId, Bytes(device));
    var f2 := Put(f1, InstanceId, Bytes(instance));
    var f3 := Put(f2, Kind, Text(Ascii(kind)));
    LookupPut(map[], DeviceId, Bytes(device), key);
    LookupPut(f1, InstanceId, Bytes(instance), key);
    LookupPut(f2, Kind, Text(Ascii(kind)), key);
    LookupPut(f3, Version, Unsigned(1), key);
  }

  lemma HelloContents(displayName: seq<byte>, interval: uint64, device: Uuid, instance: Uuid, info: Value, key: Key)
    ensures Lookup(HelloFields(displayName, interval, device, instance, info), key)
         == HelloField(displayName, interval, device, instance, info, key)
  {
    hide Name, Put, Ascii, Envelope, Lookup;
    var f0 := Envelope("hello", device, instance);
    var f1 := Put(f0, DisplayName, Text(displayName));
    EnvelopeContents("hello", device, instance, key);
    LookupPut(f0, DisplayName, Text(displayName), key);
    LookupPut(f1, Interval, Unsigned(interval), key);
    LookupPut(Put(f1, Interval, Unsigned(interval)), SystemInfo, info, key);
  }

  lemma SnapshotContents(interval: uint64, device: Uuid, instance: Uuid, sequence: uint64, info: Value,
                         metrics: Option<Value>, key: Key)
    ensures Lookup(SnapshotFields(interval, device, instance, sequence, info, metrics), key)
         == SnapshotField(interval, device, instance, sequence, info, metrics, key)
  {
    hide Name, Put, Ascii, Envelope, Lookup;
    var f0 := Envelope("snapshot", device, instance);
    var f1 := Put(f0, Interval, Unsigned(interval));
    var f2 := Put(f1, Sequence, Unsigned(sequence));
    EnvelopeContents("snapshot", device, instance, key);
    LookupPut(f0, Interval, Unsigned(interval), key);
    LookupPut(f1, Sequence, Unsigned(sequence), key);
    LookupPut(f2, SystemInfo, info, key);
    if metrics.Some? {
      LookupPut(Put(f2, SystemInfo, info), Metrics, metrics.value, key);
    }
  }

  lemma PutFits(fields: Fields, key: Key, value: Value)
    requires Fits(Map(fields)) && |fields| < 16 && Fits(value) && OnlyNamed(fields)
    ensures Fits(Map(Put(fields, key, value))) && |Put(fields, key, value)| <= |fields| + 1
    ensures OnlyNamed(Put(fields, key, value))
  {
    hide Name, OnlyNamed;
    NameIsShort(key);
    PutNamed(fields, key, value);
    OneMoreFits(fields, Name(key), value);
  }

  lemma NameIsShort(key: Key)
    ensures |Name(key)| < 16
  {
    hide Ascii;
  }

  lemma OneMoreFits(fields: Fields, name: seq<byte>, value: Value)
    requires Fits(Map(fields)) && |fields| < 16 && Fits(value) && |name| < 16
    ensures Fits(Map(fields[name := value])) && |fields[name := value]| <= |fields| + 1
  {
    var more := fields[name := value];
    assert more.Keys == fields.Keys + {name};
    forall k | k in more ensures |k| < TWO_TO_THE_64 && Fits(more[k]) {
      if k != name {
        assert k in fields;
      }
    }
  }

  lemma PutNamed(fields: Fields, key: Key, value: Value)
    requires OnlyNamed(fields)
    ensures OnlyNamed(Put(fields, key, value))
  {
    hide Name;
  }

  lemma NothingNamed()
    ensures OnlyNamed(map[])
  {
  }

  lemma EnvelopeFits(kind: string, device: Uuid, instance: Uuid)
    requires |kind| < 16
    ensures Fits(Map(Envelope(kind, device, instance))) && |Envelope(kind, device, instance)| <= 4
    ensures OnlyNamed(Envelope(kind, device, instance))
  {
    hide Name, Put, OnlyNamed;
    NothingNamed();
    var f0: Fields := map[];
    assert Fits(Map(f0));
    var f1 := Put(f0, DeviceId, Bytes(device));
    var f2 := Put(f1, InstanceId, Bytes(instance));
    var f3 := Put(f2, Kind, Text(Ascii(kind)));
    PutFits(f0, DeviceId, Bytes(device));
    PutFits(f1, InstanceId, Bytes(instance));
    PutFits(f2, Kind, Text(Ascii(kind)));
    PutFits(f3, Version, Unsigned(1));
  }

  // --- Reading them back ----------------------------------------------------

  /** The value a map item gives to a text key. */
  ghost function Field(item: Item, key: seq<byte>): (r: Option<Item>) {
    if item.MapItem? && exists p :: p in item.pairs && p.key == TextString(key)
    then
      var p :| p in item.pairs && p.key == TextString(key);
      Some(p.value)
    else None
  }

  lemma MapDenotesPairs(v: Value)
    requires v.Map?
    ensures Denote(v) == MapItem(DenotedPairs(v))
  {
  }

  lemma FieldOfMap(fields: map<seq<byte>, Value>, key: seq<byte>)
    ensures Field(Denote(Map(fields)), key) == if key in fields then Some(Denote(fields[key])) else None
  {
    hide KeyOrder, Denote;
    var v := Map(fields);
    var keys := KeyOrder(fields.Keys);
    var pairs := DenotedPairs(v);
    MapDenotesPairs(v);
    forall i | 0 <= i < |pairs|
      ensures keys[i] in fields && pairs[i] == Pair(TextString(keys[i]), Denote(fields[keys[i]]))
    {
      assert keys[i] in keys;
    }
    if key in fields {
      var i :| 0 <= i < |keys| && keys[i] == key;
      assert pairs[i] in pairs;
    }
  }

  /** A reader gets back a map item with exactly the fields that went in. */
  lemma ReadBack(fields: map<seq<byte>, Value>)
    requires Fits(Map(fields))
    ensures Decode(Encode(Map(fields))) == Some((Denote(Map(fields)), []))
    ensures forall key :: Field(Denote(Map(fields)), key)
                       == if key in fields then Some(Denote(fields[key])) else None
  {
    hide Encode, Decode, Denote, Field;
    DecodeEncode(Map(fields), []);
    assert Encode(Map(fields)) + [] == Encode(Map(fields));
    forall key ensures Field(Denote(Map(fields)), key) == if key in fields then Some(Denote(fields[key])) else None {
      FieldOfMap(fields, key);
    }
  }

  // --- Recognising an accepted registration ---------------------------------

  const RECEIVE_BUFFER: nat := 2048

  /** `registered`: at least one byte arrived and the buffer holds a 0xf5. A longer datagram is cut off. */
  method Registered(response: seq<byte>) returns (registered: bool)
    ensures registered <==> 0xf5 in response[..if |response| < RECEIVE_BUFFER then |response| else RECEIVE_BUFFER]
  {
    var received := if |response| < RECEIVE_BUFFER then response else response[..RECEIVE_BUFFER];
    registered := |received| > 0 && 0xf5 in received;
  }

  /** A registration result that says "accepted": true is recognised, whichever codec wrote it. */
  method RecogniseAcceptance(response: seq<byte>) returns (registered: bool)
    requires |response| <= RECEIVE_BUFFER
    ensures Decode(response).Some? && Field(Decode(response).value.0, Ascii("accepted")) == Some(TRUE) ==> registered
  {
    registered := Registered(response);
    assert response[..|response|] == response;
    if Decode(response).Some? && Field(Decode(response).value.0, Ascii("accepted")) == Some(TRUE) {
      AcceptedMentionsTrue(Decode(response).value.0, Ascii("accepted"));
      TrueIsVisible(response);
    }
  }

  lemma AcceptedMentionsTrue(item: Item, key: seq<byte>)
    requires Field(item, key) == Some(TRUE)
    ensures Mentions(item, TRUE)
  {
    var p :| p in item.pairs && p.key == TextString(key) && p.value == TRUE;
    var i :| 0 <= i < |item.pairs| && item.pairs[i] == p;
    assert Mentions(item.pairs[i].value, TRUE);
  }
}
