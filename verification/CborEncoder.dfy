/** The daemon's CBOR encoder (daemon/src/daemon.cpp): heads, nested values and maps with sorted keys. */
module CborEncoder {
  import opened CborFormat
  import opened Ordering

  /** What the daemon can put on the wire. A string is its bytes, a double its bit pattern. */
  datatype Value =
    | Unsigned(unsignedValue: uint64)
    | Float(bits: uint64)
    | Text(text: seq<byte>)
    | Bytes(bytes: seq<byte>)
    | Boolean(boolean: bool)
    | Array(items: seq<Value>)
    | Map(fields: map<seq<byte>, Value>)

  /** Every container and string has a size that std::size_t can hold. */
  ghost predicate Fits(v: Value) {
    match v
    case Unsigned(_) => true
    case Float(_) => true
    case Boolean(_) => true
    case Text(t) => |t| < TWO_TO_THE_64
    case Bytes(b) => |b| < TWO_TO_THE_64
    case Array(items) => |items| < TWO_TO_THE_64 && forall i :: 0 <= i < |items| ==> Fits(items[i])
    case Map(fields) =>
      |fields| < TWO_TO_THE_64 && forall k :: k in fields ==> |k| < TWO_TO_THE_64 && Fits(fields[k])
  }

  // --- Specification --------------------------------------------------------

  function HeadBytes(major: nat, n: nat): (r: seq<byte>)
    requires major < 8
    ensures r != []
  {
    if n < 24 then [major * 32 + n]
    else if n < 0x100 then [major * 32 + 24] + BigEndian(n, 1)
    else if n < 0x1_0000 then [major * 32 + 25] + BigEndian(n, 2)
    else if n < 0x1_0000_0000 then [major * 32 + 26] + BigEndian(n, 4)
    else [major * 32 + 27] + BigEndian(n, 8)
  }

  function EncodedKey(k: seq<byte>): seq<byte> {
    HeadBytes(3, |k|) + k
  }

  /** The comparator given to std::sort, applied to the encoded keys of two entries. */
  predicate KeyLess(a: seq<byte>, b: seq<byte>) {
    var x, y := EncodedKey(a), EncodedKey(b);
    if |x| != |y| then |x| < |y| else LexLess(x, y)
  }

  /** Some listing of a finite set; the sort below makes the choice irrelevant. */
  ghost function Listed(keys: set<seq<byte>>): (r: seq<seq<byte>>)
    ensures |r| == |keys|
    ensures forall k :: k in r <==> k in keys
    ensures forall i, j :: 0 <= i < j < |r| ==> r[i] != r[j]
  {
    if keys == {} then []
    else
      var k :| k in keys;
      [k] + Listed(keys - {k})
  }

  /** The order in which the entries of a map are written. */
  ghost function KeyOrder(keys: set<seq<byte>>): (r: seq<seq<byte>>)
    ensures |r| == |keys|
    ensures forall k :: k in r <==> k in keys
  {
    var sorted := Sort(Listed(keys), KeyLess);
    SameMembers(sorted, Listed(keys));
    sorted
  }

  ghost function Encode(v: Value): (r: seq<byte>)
    decreases v, 1, 0
  {
    match v
    case Unsigned(n) => HeadBytes(0, n)
    case Float(bits) => [0xfb] + BigEndian(bits, 8)
    case Text(t) => HeadBytes(3, |t|) + t
    case Bytes(b) => HeadBytes(2, |b|) + b
    case Boolean(flag) => [if flag then 0xf5 else 0xf4]
    case Array(items) => HeadBytes(4, |items|) + EncodeItems(v, 0)
    case Map(fields) => HeadBytes(5, |fields|) + EncodeFields(v, KeyOrder(fields.Keys))
  }

  /** The items of array `v` from index `i` on. */
  ghost function EncodeItems(v: Value, i: nat): (r: seq<byte>)
    requires v.Array? && i <= |v.items|
    decreases v, 0, |v.items| - i
  {
    if i == |v.items| then [] else Encode(v.items[i]) + EncodeItems(v, i + 1)
  }

  /** The entries of map `v` under `keys`, in that order. */
  ghost function EncodeFields(v: Value, keys: seq<seq<byte>>): (r: seq<byte>)
    requires v.Map? && forall k :: k in keys ==> k in v.fields
    decreases v, 0, |keys|
  {
    if keys == [] then []
    else EncodedKey(keys[0]) + Encode(v.fields[keys[0]]) + EncodeFields(v, keys[1..])
  }

  // --- The order of keys ----------------------------------------------------

  lemma KeyLessIsStrict()
    ensures StrictOrder(KeyLess)
  {
    forall x ensures !KeyLess(x, x) {
      LexIrreflexive(EncodedKey(x));
    }
    forall x, y, z | KeyLess(x, y) && KeyLess(y, z) ensures KeyLess(x, z) {
      if |EncodedKey(x)| == |EncodedKey(y)| == |EncodedKey(z)| {
        LexTransitive(EncodedKey(x), EncodedKey(y), EncodedKey(z));
      }
    }
  }

  /** A longer key never has a shorter head, so its encoding is longer as a whole. */
  lemma LongerKeyLongerCode(a: seq<byte>, b: seq<byte>)
    ensures |a| < |b| ==> |EncodedKey(a)| < |EncodedKey(b)|
    ensures |a| == |b| ==> |EncodedKey(a)| == |EncodedKey(b)|
  {
  }

  lemma SameCodeSameKey(a: seq<byte>, b: seq<byte>)
    requires |a| == |b| && EncodedKey(a) == EncodedKey(b)
    ensures a == b
  {
    var h := |HeadBytes(3, |a|)|;
    assert EncodedKey(a)[h..] == a && EncodedKey(b)[h..] == b;
  }

  lemma KeysAreComparable(a: seq<byte>, b: seq<byte>)
    requires a != b
    ensures KeyLess(a, b) || KeyLess(b, a)
  {
    LongerKeyLongerCode(a, b);
    LongerKeyLongerCode(b, a);
    LexTotal(EncodedKey(a), EncodedKey(b));
    if |a| == |b| && EncodedKey(a) == EncodedKey(b) {
      SameCodeSameKey(a, b);
    }
  }

  lemma KeyOrderAscending(keys: set<seq<byte>>)
    ensures Ascending(KeyOrder(keys), KeyLess)
  {
    KeyLessIsStrict();
    var l := Listed(keys);
    forall i, j | 0 <= i < |l| && 0 <= j < |l| && i != j ensures KeyLess(l[i], l[j]) || KeyLess(l[j], l[i]) {
      KeysAreComparable(l[i], l[j]);
    }
    SortAscending(l, KeyLess);
  }

  // --- Sorting the entries of a map -----------------------------------------

  /** An element of the vector the encoder sorts: the encoded key and which entry it belongs to. */
  datatype Entry = Entry(encoded: seq<byte>, key: seq<byte>)

  predicate EntryLess(a: Entry, b: Entry) {
    if |a.encoded| != |b.encoded| then |a.encoded| < |b.encoded| else LexLess(a.encoded, b.encoded)
  }

  /** `p` lists every key of `keys` once, each with its encoding. */
  ghost predicate Lists(p: seq<Entry>, keys: set<seq<byte>>) {
    && (forall i :: 0 <= i < |p| ==> p[i].key in keys && p[i].encoded == EncodedKey(p[i].key))
    && (forall i, j :: 0 <= i < j < |p| ==> p[i].key != p[j].key)
    && (forall k :: k in keys ==> exists i :: 0 <= i < |p| && p[i].key == k)
  }

  lemma ListsNothing()
    ensures Lists([], {})
  {
  }

  lemma ListsOneMore(p: seq<Entry>, keys: set<seq<byte>>, k: seq<byte>)
    requires Lists(p, keys) && k !in keys
    ensures Lists(p + [Entry(EncodedKey(k), k)], keys + {k})
  {
    var q := p + [Entry(EncodedKey(k), k)];
    assert q[|p|].key == k;
    forall x | x in keys ensures exists i :: 0 <= i < |q| && q[i].key == x {
      var i :| 0 <= i < |p| && p[i].key == x;
      assert q[i].key == x;
    }
  }

  ghost function KeysOf(p: seq<Entry>): (r: seq<seq<byte>>)
    ensures |r| == |p|
    ensures forall i :: 0 <= i < |p| ==> r[i] == p[i].key
  {
    seq(|p|, i requires 0 <= i < |p| => p[i].key)
  }

  lemma EntryLessIsStrict()
    ensures StrictOrder(EntryLess)
  {
    forall x: Entry ensures !EntryLess(x, x) {
      LexIrreflexive(x.encoded);
    }
    forall x, y, z | EntryLess(x, y) && EntryLess(y, z) ensures EntryLess(x, z) {
      if |x.encoded| == |y.encoded| == |z.encoded| {
        LexTransitive(x.encoded, y.encoded, z.encoded);
      }
    }
  }

  /** In whatever order the entries were collected, sorting them leaves the keys in KeyOrder. */
  lemma SortedEntries(p: seq<Entry>, keys: set<seq<byte>>)
    requires Lists(p, keys)
    ensures |Sort(p, EntryLess)| == |keys|
    ensures KeysOf(Sort(p, EntryLess)) == KeyOrder(keys)
    ensures forall e :: e in Sort(p, EntryLess) ==> e.key in keys && e.encoded == EncodedKey(e.key)
  {
    hide LexLess, EncodedKey;
    var s := Sort(p, EntryLess);
    SameMembers(s, p);
    EntryLessIsStrict();
    forall i, j | 0 <= i < |p| && 0 <= j < |p| && i != j ensures EntryLess(p[i], p[j]) || EntryLess(p[j], p[i]) {
      KeysAreComparable(p[i].key, p[j].key);
    }
    SortAscending(p, EntryLess);
    forall e | e in s ensures e.key in keys && e.encoded == EncodedKey(e.key) {
      assert e in p;
    }
    var r := KeysOf(s);
    forall i, j | 0 <= i < j < |r| ensures KeyLess(r[i], r[j]) {
      assert s[i] in s && s[j] in s && EntryLess(s[i], s[j]);
    }
    forall k ensures k in r <==> k in keys {
      if k in r {
        var i :| 0 <= i < |r| && r[i] == k;
        assert s[i] in s;
      }
      if k in keys {
        var i :| 0 <= i < |p| && p[i].key == k;
        assert p[i] in s;
        var j :| 0 <= j < |s| && s[j] == p[i];
        assert r[j] == k;
      }
    }
    KeyLessIsStrict();
    KeyOrderAscending(keys);
    AscendingUnique(r, KeyOrder(keys), KeyLess);
  }

  // --- The encoder ----------------------------------------------------------

  /** n >> (8 * i). */
  function ShiftedBytes(n: nat, i: nat): nat {
    if i == 0 then n else ShiftedBytes(n, i - 1) / 256
  }

  lemma {:induction false} ShiftedOut(n: nat, i: nat, width: nat)
    requires i <= width && n < Pow256(width)
    ensures ShiftedBytes(n, i) < Pow256(width - i)
  {
    if i > 0 {
      ShiftedOut(n, i - 1, width);
    }
  }

  lemma OneByte(n: nat)
    requires n < 0x100
    ensures BigEndian(n, 1) == [n]
  {
    hide BigEndian;
    LastByte(n, 1);
    assert BigEndian(n / 256, 0) == [];
  }

  lemma TwoBytes(n: nat)
    requires n < 0x1_0000
    ensures BigEndian(n, 2) == [n / 256, n % 256]
  {
    hide BigEndian;
    LastByte(n, 2);
    OneByte(n / 256);
  }

  lemma LastByte(n: nat, width: nat)
    requires width > 0
    ensures BigEndian(n, width) == BigEndian(n / 256, width - 1) + [n % 256]
  {
  }

  lemma NoFieldsLeft(v: Value, keys: seq<seq<byte>>)
    requires v.Map? && keys == []
    ensures EncodeFields(v, keys) == []
  {
  }

  lemma FieldsFrom(v: Value, keys: seq<seq<byte>>, i: nat)
    requires v.Map? && i < |keys| && forall k :: k in keys ==> k in v.fields
    ensures EncodeFields(v, keys[i..])
         == EncodedKey(keys[i]) + Encode(v.fields[keys[i]]) + EncodeFields(v, keys[i + 1..])
  {
    hide Encode, EncodedKey;
    assert keys[i..][0] == keys[i] && keys[i..][1..] == keys[i + 1..];
  }

  class ByteWriter {
    var out: seq<byte>

    constructor ()
      ensures out == []
    {
      out := [];
    }

    method Push(b: byte)
      modifies this
      ensures out == old(out) + [b]
    {
      out := out + [b];
    }

    /** The loops that push the bytes of a number, most significant first. */
    method PushBigEndian(n: uint64, width: nat)
      requires n < Pow256(width)
      modifies this
      ensures out == old(out) + BigEndian(n, width)
    {
      var i := width;
      ShiftedOut(n, width, width);
      while i > 0
        invariant 0 <= i <= width
        invariant out == old(out) + BigEndian(ShiftedBytes(n, i), width - i)
      {
        i := i - 1;
        Push(ShiftedBytes(n, i) % 256);
      }
    }

    method Head(major: nat, n: uint64)
      requires major < 8
      modifies this
      ensures out == old(out) + HeadBytes(major, n)
    {
      hide BigEndian, Pow256;
      WordSizes();
      if n < 0x100 {
        OneByte(n);
      } else if n < 0x1_0000 {
        TwoBytes(n);
      }
      if n < 24 {
        Push(major * 32 + n);
      } else if n < 0x100 {
        Push(major * 32 + 24);
        Push(n);
      } else if n < 0x1_0000 {
        Push(major * 32 + 25);
        Push(n / 256);
        Push(n % 256);
      } else if n < 0x1_0000_0000 {
        Push(major * 32 + 26);
        PushBigEndian(n, 4);
      } else {
        Push(major * 32 + 27);
        PushBigEndian(n, 8);
      }
    }

    method PutText(t: seq<byte>)
      requires |t| < TWO_TO_THE_64
      modifies this
      ensures out == old(out) + EncodedKey(t)
    {
      Head(3, |t|);
      out := out + t;
    }

    method Put(v: Value)
      requires Fits(v)
      modifies this
      ensures out == old(out) + Encode(v)
      decreases v, 1
    {
      hide HeadBytes, BigEndian, Pow256, KeyOrder;
      match v
      case Unsigned(n) =>
        Head(0, n);
      case Float(bits) =>
        Push(0xfb);
        WordSizes();
        PushBigEndian(bits, 8);
      case Text(t) =>
        PutText(t);
      case Bytes(b) =>
        Head(2, |b|);
        out := out + b;
      case Boolean(flag) =>
        Push(if flag then 0xf5 else 0xf4);
      case Array(items) =>
        Head(4, |items|);
        PutItems(v);
      case Map(fields) =>
        PutFields(v);
    }

    method PutItems(v: Value)
      requires Fits(v) && v.Array?
      modifies this
      ensures out == old(out) + EncodeItems(v, 0)
      decreases v, 0
    {
      hide Encode;
      for i := 0 to |v.items|
        invariant out + EncodeItems(v, i) == old(out) + EncodeItems(v, 0)
      {
        assert EncodeItems(v, i) == Encode(v.items[i]) + EncodeItems(v, i + 1);
        Put(v.items[i]);
      }
    }

    method PutFields(v: Value)
      requires Fits(v) && v.Map?
      modifies this
      ensures out == old(out) + HeadBytes(5, |v.fields|) + EncodeFields(v, KeyOrder(v.fields.Keys))
      decreases v, 0
    {
      hide Encode, HeadBytes, KeyOrder, EncodedKey, EncodeFields, Sort, LexLess, EntryLess, Lists, KeysOf;
      var p := SortedFields(v.fields);
      ghost var keys := KeyOrder(v.fields.Keys);
      Head(5, |p|);
      ghost var start := out;
      assert keys[0..] == keys;
      for i := 0 to |p|
        invariant out + EncodeFields(v, keys[i..]) == start + EncodeFields(v, keys)
      {
        FieldsFrom(v, keys, i);
        out := out + p[i].encoded;
        Put(v.fields[p[i].key]);
      }
      NoFieldsLeft(v, keys[|p|..]);
    }

    /** The vector of encoded keys in the order std::sort leaves it. */
    static method SortedFields(fields: map<seq<byte>, Value>) returns (p: seq<Entry>)
      requires forall k :: k in fields ==> |k| < TWO_TO_THE_64
      ensures |p| == |fields|
      ensures forall i :: 0 <= i < |p| ==> p[i] == Entry(EncodedKey(p[i].key), KeyOrder(fields.Keys)[i])
    {
      hide KeyOrder, EncodedKey, Sort, LexLess, EntryLess, Lists;
      p := Collect(fields.Keys);
      SortedEntries(p, fields.Keys);
      p := Sort(p, EntryLess);
      assert |fields.Keys| == |fields|;
      forall i | 0 <= i < |p| ensures p[i] == Entry(EncodedKey(p[i].key), KeyOrder(fields.Keys)[i]) {
        assert p[i] in p && KeysOf(p)[i] == p[i].key;
      }
    }

    /** The vector of encoded keys, collected in whatever order the map is walked. */
    static method Collect(keys: set<seq<byte>>) returns (p: seq<Entry>)
      requires forall k :: k in keys ==> |k| < TWO_TO_THE_64
      ensures Lists(p, keys)
    {
      hide Lists, EncodedKey;
      p := [];
      ListsNothing();
      var remaining := keys;
      ghost var done := {};
      while remaining != {}
        invariant done !! remaining && done + remaining == keys
        invariant Lists(p, done)
      {
        var k :| k in remaining;
        var e := KeyEntry(k);
        ListsOneMore(p, done, k);
        p := p + [e];
        done, remaining := done + {k}, remaining - {k};
      }
    }

    static method KeyEntry(k: seq<byte>) returns (e: Entry)
      requires |k| < TWO_TO_THE_64
      ensures e == Entry(EncodedKey(k), k)
    {
      var w := new ByteWriter();
      w.PutText(k);
      e := Entry(w.out, k);
    }
  }

  /** `cbor`: the bytes of one value. */
  method Cbor(v: Value) returns (bytes: seq<byte>)
    requires Fits(v)
    ensures bytes == Encode(v)
  {
    var w := new ByteWriter();
    w.Put(v);
    bytes := w.out;
  }
}
