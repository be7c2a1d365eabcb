/** What the daemon's bytes mean, and why no other value, prefix or longer form can be mistaken for them. */
module CborTheorems {
  import opened Wrappers
  import opened CborFormat
  import opened CborEncoder
  import opened Ordering

  // --- The reader inverts the encoder ---------------------------------------

  /** The data item a value stands for; the pairs of a map are in the order of its encoded keys. */
  ghost function Denote(v: Value): Item
    decreases v, 1
  {
    match v
    case Unsigned(n) => UnsignedInteger(n)
    case Float(bits) => DoubleFloat(bits)
    case Text(t) => TextString(t)
    case Bytes(b) => ByteString(b)
    case Boolean(flag) => if flag then TRUE else FALSE
    case Array(items) => ArrayItem(DenotedItems(v))
    case Map(fields) => MapItem(DenotedPairs(v))
  }

  ghost function DenotedItems(v: Value): (r: seq<Item>)
    requires v.Array?
    ensures |r| == |v.items|
    decreases v, 0
  {
    seq(|v.items|, i requires 0 <= i < |v.items| => Denote(v.items[i]))
  }

  ghost function DenotedPairs(v: Value): (r: seq<Pair>)
    requires v.Map?
    ensures |r| == |v.fields|
    decreases v, 0
  {
    var keys := KeyOrder(v.fields.Keys);
    seq(|keys|, i requires 0 <= i < |keys| =>
      assert keys[i] in keys;
      Pair(TextString(keys[i]), Denote(v.fields[keys[i]])))
  }

  function ShortInfo(n: nat): (info: nat)
    ensures info < 28
  {
    if n < 24 then n else if n < 0x100 then 24 else if n < 0x1_0000 then 25 else if n < 0x1_0000_0000 then 26 else 27
  }

  lemma HeadReads(major: nat, n: nat, rest: seq<byte>)
    requires major < 8 && n < TWO_TO_THE_64
    ensures ReadHead(HeadBytes(major, n) + rest) == Some((Head(major, ShortInfo(n), n), rest))
  {
    hide BigEndian, Pow256, Number;
    var info := ShortInfo(n);
    var w := ArgumentWidth(info);
    WordSizes();
    var b := HeadBytes(major, n) + rest;
    assert b[0] == major * 32 + info;
    assert b[0] / 32 == major && b[0] % 32 == info;
    if w > 0 {
      assert HeadBytes(major, n) == [b[0]] + BigEndian(n, w);
      assert b[1..1 + w] == BigEndian(n, w);
      NumberOfBigEndian(n, w);
    }
    assert b[1 + w..] == rest;
  }

  lemma {:induction false} DecodeEncode(v: Value, rest: seq<byte>)
    requires Fits(v)
    ensures Decode(Encode(v) + rest) == Some((Denote(v), rest))
    decreases v, 1, 0
  {
    hide HeadBytes, ReadHead, BigEndian, EncodeFields, EncodeItems, KeyOrder, DecodeItems, DecodePairs;
    match v
    case Unsigned(n) => HeadReads(0, n, rest);
    case Float(bits) => FloatReads(bits, rest);
    case Text(t) => StringReads(3, t, rest);
    case Bytes(b) => StringReads(2, b, rest);
    case Boolean(flag) => BooleanReads(flag, rest);
    case Array(items) =>
      HeadReads(4, |items|, EncodeItems(v, 0) + rest);
      assert Encode(v) + rest == HeadBytes(4, |items|) + (EncodeItems(v, 0) + rest);
      DecodeEncodeItems(v, 0, rest);
    case Map(fields) =>
      var keys := KeyOrder(fields.Keys);
      HeadReads(5, |fields|, EncodeFields(v, keys) + rest);
      assert Encode(v) + rest == HeadBytes(5, |fields|) + (EncodeFields(v, keys) + rest);
      assert |fields.Keys| == |fields| && keys[0..] == keys;
      DecodeEncodeFields(v, 0, rest);
  }

  lemma FloatReads(bits: uint64, rest: seq<byte>)
    ensures Decode([0xfb] + BigEndian(bits, 8) + rest) == Some((DoubleFloat(bits), rest))
  {
    hide BigEndian, Pow256, Number;
    var b := [0xfb] + BigEndian(bits, 8) + rest;
    assert b[0] == 0xfb && b[0] / 32 == 7 && b[0] % 32 == 27;
    assert b[1..9] == BigEndian(bits, 8) && b[9..] == rest;
    WordSizes();
    NumberOfBigEndian(bits, 8);
  }

  lemma BooleanReads(flag: bool, rest: seq<byte>)
    ensures Decode([if flag then 0xf5 else 0xf4] + rest) == Some((if flag then TRUE else FALSE, rest))
  {
    var b := [if flag then 0xf5 else 0xf4] + rest;
    assert b[0] / 32 == 7 && b[0] % 32 == (if flag then 21 else 20);
    assert b[1..] == rest;
  }

  lemma StringReads(major: nat, s: seq<byte>, rest: seq<byte>)
    requires 2 <= major <= 3 && |s| < TWO_TO_THE_64
    ensures Decode(HeadBytes(major, |s|) + s + rest)
         == Some((if major == 3 then TextString(s) else ByteString(s), rest))
  {
    hide HeadBytes, ReadHead;
    HeadReads(major, |s|, s + rest);
    assert HeadBytes(major, |s|) + s + rest == HeadBytes(major, |s|) + (s + rest);
    assert (s + rest)[..|s|] == s && (s + rest)[|s|..] == rest;
  }

  lemma {:induction false} DecodeEncodeItems(v: Value, i: nat, rest: seq<byte>)
    requires Fits(v) && v.Array? && i <= |v.items|
    ensures DecodeItems(|v.items| - i, EncodeItems(v, i) + rest) == Some((DenotedItems(v)[i..], rest))
    decreases v, 0, |v.items| - i
  {
    hide Encode, Decode;
    if i == |v.items| {
      assert EncodeItems(v, i) + rest == rest && DenotedItems(v)[i..] == [];
    } else {
      var tail := EncodeItems(v, i + 1) + rest;
      DecodeEncode(v.items[i], tail);
      DecodeEncodeItems(v, i + 1, rest);
      assert EncodeItems(v, i) + rest == Encode(v.items[i]) + tail;
      assert DenotedItems(v)[i..] == [Denote(v.items[i])] + DenotedItems(v)[i + 1..];
    }
  }

  lemma {:induction false} DecodeEncodeFields(v: Value, i: nat, rest: seq<byte>)
    requires Fits(v) && v.Map? && i <= |v.fields|
    ensures DecodePairs(|v.fields| - i, EncodeFields(v, KeyOrder(v.fields.Keys)[i..]) + rest)
         == Some((DenotedPairs(v)[i..], rest))
    decreases v, 0, |v.fields| - i
  {
    hide Encode, Decode, KeyOrder, HeadBytes, EncodeFields, DecodePairs;
    var keys := KeyOrder(v.fields.Keys);
    if i == |v.fields| {
      NoFieldsLeft(v, keys[i..]);
      assert EncodeFields(v, keys[i..]) + rest == rest && DenotedPairs(v)[i..] == [];
      ReadNoPairs(rest);
    } else {
      var key := keys[i];
      assert key in keys;
      var tail := EncodeFields(v, keys[i + 1..]) + rest;
      var value := Encode(v.fields[key]) + tail;
      FieldsFrom(v, keys, i);
      assert EncodeFields(v, keys[i..]) + rest == HeadBytes(3, |key|) + key + value;
      StringReads(3, key, value);
      DecodeEncode(v.fields[key], tail);
      DecodeEncodeFields(v, i + 1, rest);
      ReadOnePair(|v.fields| - i, EncodeFields(v, keys[i..]) + rest, value, tail);
      assert DenotedPairs(v)[i..] == [Pair(TextString(key), Denote(v.fields[key]))] + DenotedPairs(v)[i + 1..];
    }
  }

  lemma ReadNoPairs(b: seq<byte>)
    ensures DecodePairs(0, b) == Some(([], b))
  {
  }

  lemma ReadOnePair(n: nat, b: seq<byte>, afterKey: seq<byte>, afterValue: seq<byte>)
    requires n > 0
    requires Decode(b).Some? && Decode(b).value.1 == afterKey
    requires Decode(afterKey).Some? && Decode(afterKey).value.1 == afterValue
    requires DecodePairs(n - 1, afterValue).Some?
    ensures DecodePairs(n, b) == Some(([Pair(Decode(b).value.0, Decode(afterKey).value.0)]
                                       + DecodePairs(n - 1, afterValue).value.0,
                                       DecodePairs(n - 1, afterValue).value.1))
  {
    hide Decode;
  }

  // --- Injective and prefix-free --------------------------------------------

  lemma {:induction false} DenoteInjective(a: Value, b: Value)
    requires Denote(a) == Denote(b)
    ensures a == b
    decreases a
  {
    hide KeyOrder;
    match a
    case Array(items) =>
      forall i | 0 <= i < |items| ensures items[i] == b.items[i] {
        assert DenotedItems(a)[i] == DenotedItems(b)[i];
        DenoteInjective(items[i], b.items[i]);
      }
    case Map(fields) =>
      SamePairsSameKeys(a, b);
      forall k | k in fields ensures fields[k] == b.fields[k] {
        var keys := KeyOrder(fields.Keys);
        var i :| 0 <= i < |keys| && keys[i] == k;
        assert DenotedPairs(a)[i] == DenotedPairs(b)[i];
        DenoteInjective(fields[k], b.fields[k]);
      }
      assert fields == b.fields;
    case _ =>
  }

  lemma SamePairsSameKeys(a: Value, b: Value)
    requires a.Map? && b.Map? && DenotedPairs(a) == DenotedPairs(b)
    ensures KeyOrder(a.fields.Keys) == KeyOrder(b.fields.Keys)
    ensures a.fields.Keys == b.fields.Keys
  {
    hide KeyOrder, Denote;
    var x, y := KeyOrder(a.fields.Keys), KeyOrder(b.fields.Keys);
    assert |x| == |DenotedPairs(a)| == |DenotedPairs(b)| == |y|;
    forall i | 0 <= i < |x| ensures x[i] == y[i] {
      assert DenotedPairs(a)[i].key == TextString(x[i]);
      assert DenotedPairs(b)[i].key == TextString(y[i]);
    }
    assert x == y;
    assert forall k :: k in a.fields.Keys <==> k in x;
  }

  /** No message is a proper prefix of another, and no two values share their bytes. */
  lemma EncodingIsPrefixFree(a: Value, b: Value)
    requires Fits(a) && Fits(b)
    ensures Encode(a) <= Encode(b) <==> a == b
  {
    hide Encode, Decode, Denote;
    if Encode(a) <= Encode(b) {
      var rest := Encode(b)[|Encode(a)|..];
      assert Encode(b) + [] == Encode(a) + rest;
      DecodeEncode(a, rest);
      DecodeEncode(b, []);
      DenoteInjective(a, b);
    }
  }

  // --- Shortest form (section 4.2.1 of RFC 8949) -----------------------------

  /** Any other head with the same major type and argument is longer. */
  lemma ShortestHead(b: seq<byte>)
    requires ReadHead(b).Some?
    ensures var (h, rest) := ReadHead(b).value;
      && h.major < 8 && h.argument < TWO_TO_THE_64
      && |HeadBytes(h.major, h.argument)| + |rest| <= |b|
      && (|HeadBytes(h.major, h.argument)| + |rest| == |b| ==> HeadBytes(h.major, h.argument) + rest == b)
  {
    hide BigEndian, Number, Pow256;
    var (h, rest) := ReadHead(b).value;
    var w := ArgumentWidth(h.info);
    WordSizes();
    assert b[0] == h.major * 32 + h.info;
    if w == 0 {
      assert b == [b[0]] + rest;
    } else {
      var argument := b[1..1 + w];
      assert b == [b[0]] + argument + rest;
      BigEndianOfNumber(argument);
    }
  }

  /** `code` is at most as long as what was read from `b`, and equal to it when just as long. */
  ghost predicate NoLonger(code: seq<byte>, b: seq<byte>, rest: seq<byte>) {
    |code| + |rest| <= |b| && (|code| + |rest| == |b| ==> code + rest == b)
  }

  lemma NoLongerThenNoLonger(x: seq<byte>, y: seq<byte>, b: seq<byte>, middle: seq<byte>, rest: seq<byte>)
    requires NoLonger(x, b, middle) && NoLonger(y, middle, rest)
    ensures NoLonger(x + y, b, rest)
  {
    if |x + y| + |rest| == |b| {
      assert x + y + rest == x + (y + rest);
    }
  }

  lemma NothingIsNoLonger(b: seq<byte>)
    ensures NoLonger([], b, b)
  {
    assert [] + b == b;
  }

  /** Whatever bytes stand for the same value, the daemon's are the shortest and the only ones of that length. */
  lemma {:induction false} EncodingIsShortest(v: Value, b: seq<byte>)
    requires Decode(b).Some? && Decode(b).value.0 == Denote(v)
    ensures NoLonger(Encode(v), b, Decode(b).value.1)
    decreases v, 1, 0
  {
    hide HeadBytes, ReadHead, BigEndian, EncodeFields, EncodeItems, KeyOrder, DecodeItems, DecodePairs, NoLonger;
    var h, middle := ReadHead(b).value.0, ReadHead(b).value.1;
    ShortestHead(b);
    match v
    case Unsigned(n) => HeadNoLonger(b);
    case Float(bits) => FloatNoLonger(b, bits);
    case Boolean(flag) => BooleanNoLonger(b, flag);
    case Text(t) => StringNoLonger(b);
    case Bytes(t) => StringNoLonger(b);
    case Array(items) =>
      HeadNoLonger(b);
      assert h.argument == |items| by { CountItems(h.argument, middle); }
      assert DenotedItems(v)[0..] == DenotedItems(v);
      ItemsAreShortest(v, 0, middle);
      NoLongerThenNoLonger(HeadBytes(4, |items|), EncodeItems(v, 0), b, middle, Decode(b).value.1);
    case Map(fields) =>
      HeadNoLonger(b);
      assert h.argument == |fields| by { CountPairs(h.argument, middle); }
      var keys := KeyOrder(fields.Keys);
      assert DenotedPairs(v)[0..] == DenotedPairs(v) && keys[0..] == keys;
      FieldsAreShortest(v, 0, middle);
      NoLongerThenNoLonger(HeadBytes(5, |fields|), EncodeFields(v, keys), b, middle, Decode(b).value.1);
  }

  lemma HeadNoLonger(b: seq<byte>)
    requires ReadHead(b).Some?
    ensures var (h, rest) := ReadHead(b).value;
      h.major < 8 && NoLonger(HeadBytes(h.major, h.argument), b, rest)
  {
    ShortestHead(b);
  }

  lemma FloatNoLonger(b: seq<byte>, bits: uint64)
    requires Decode(b).Some? && Decode(b).value.0 == DoubleFloat(bits)
    ensures NoLonger([0xfb] + BigEndian(bits, 8), b, Decode(b).value.1)
  {
    hide BigEndian, Number;
    var rest := Decode(b).value.1;
    assert b[0] == 0xfb;
    assert b == [b[0]] + b[1..9] + rest;
    BigEndianOfNumber(b[1..9]);
  }

  lemma BooleanNoLonger(b: seq<byte>, flag: bool)
    requires Decode(b).Some? && Decode(b).value.0 == if flag then TRUE else FALSE
    ensures NoLonger([if flag then 0xf5 else 0xf4], b, Decode(b).value.1)
  {
    assert b[0] == if flag then 0xf5 else 0xf4;
    assert b == [b[0]] + b[1..];
  }

  lemma StringNoLonger(b: seq<byte>)
    requires Decode(b).Some? && (Decode(b).value.0.TextString? || Decode(b).value.0.ByteString?)
    ensures Decode(b).value.0.TextString? ==>
      NoLonger(EncodedKey(Decode(b).value.0.text), b, Decode(b).value.1)
    ensures Decode(b).value.0.ByteString? ==>
      NoLonger(HeadBytes(2, |Decode(b).value.0.bytes|) + Decode(b).value.0.bytes, b, Decode(b).value.1)
  {
    hide HeadBytes, ReadHead;
    HeadNoLonger(b);
    var (h, middle) := ReadHead(b).value;
    var s, rest := middle[..h.argument], middle[h.argument..];
    assert middle == s + rest;
    NoLongerThenNoLonger(HeadBytes(h.major, |s|), s, b, middle, rest);
  }

  lemma {:induction false} CountItems(n: nat, b: seq<byte>)
    requires DecodeItems(n, b).Some?
    ensures |DecodeItems(n, b).value.0| == n
    decreases n
  {
    hide Decode;
    if n > 0 {
      CountItems(n - 1, Decode(b).value.1);
    }
  }

  lemma {:induction false} CountPairs(n: nat, b: seq<byte>)
    requires DecodePairs(n, b).Some?
    ensures |DecodePairs(n, b).value.0| == n
    decreases n
  {
    hide Decode;
    if n > 0 {
      CountPairs(n - 1, Decode(Decode(b).value.1).value.1);
    }
  }

  lemma {:induction false} ItemsAreShortest(v: Value, i: nat, b: seq<byte>)
    requires v.Array? && i <= |v.items|
    requires DecodeItems(|v.items| - i, b).Some? && DecodeItems(|v.items| - i, b).value.0 == DenotedItems(v)[i..]
    ensures NoLonger(EncodeItems(v, i), b, DecodeItems(|v.items| - i, b).value.1)
    decreases v, 0, |v.items| - i
  {
    hide Encode, Decode;
    var rest := DecodeItems(|v.items| - i, b).value.1;
    if i < |v.items| {
      var read, middle := Decode(b).value.0, Decode(b).value.1;
      var others := DecodeItems(|v.items| - i - 1, middle).value.0;
      assert DenotedItems(v)[i..][0] == DenotedItems(v)[i] && DenotedItems(v)[i..][1..] == DenotedItems(v)[i + 1..];
      assert ([read] + others)[1..] == others;
      EncodingIsShortest(v.items[i], b);
      ItemsAreShortest(v, i + 1, middle);
      NoLongerThenNoLonger(Encode(v.items[i]), EncodeItems(v, i + 1), b, middle, rest);
    }
  }

  lemma {:induction false} FieldsAreShortest(v: Value, i: nat, b: seq<byte>)
    requires v.Map? && i <= |v.fields|
    requires DecodePairs(|v.fields| - i, b).Some? && DecodePairs(|v.fields| - i, b).value.0 == DenotedPairs(v)[i..]
    ensures NoLonger(EncodeFields(v, KeyOrder(v.fields.Keys)[i..]), b, DecodePairs(|v.fields| - i, b).value.1)
    decreases v, 0, |v.fields| - i
  {
    hide Encode, Decode, KeyOrder, EncodedKey, EncodeFields, NoLonger;
    var keys := KeyOrder(v.fields.Keys);
    var rest := DecodePairs(|v.fields| - i, b).value.1;
    if i == |v.fields| {
      NoFieldsLeft(v, keys[i..]);
      NothingIsNoLonger(b);
    } else {
      var afterKey := Decode(b).value.1;
      var middle := Decode(afterKey).value.1;
      var pair := Pair(Decode(b).value.0, Decode(afterKey).value.0);
      var others := DecodePairs(|v.fields| - i - 1, middle).value.0;
      assert DenotedPairs(v)[i..][0] == DenotedPairs(v)[i] && DenotedPairs(v)[i..][1..] == DenotedPairs(v)[i + 1..];
      assert ([pair] + others)[0] == pair && ([pair] + others)[1..] == others;
      var key := keys[i];
      assert key in keys;
      StringNoLonger(b);
      EncodingIsShortest(v.fields[key], afterKey);
      FieldsAreShortest(v, i + 1, middle);
      FieldsFrom(v, keys, i);
      NoLongerThenNoLonger(EncodedKey(key), Encode(v.fields[key]), b, afterKey, middle);
      NoLongerThenNoLonger(EncodedKey(key) + Encode(v.fields[key]), EncodeFields(v, keys[i + 1..]), b, middle, rest);
    }
  }

  // --- The order of map keys (sections 4.2.1 and 4.2.3 of RFC 8949) -----------

  /** The comparator is the length-first order of section 4.2.3, on the keys themselves. */
  lemma ComparatorIsLengthFirst(a: seq<byte>, b: seq<byte>)
    ensures KeyLess(a, b) <==> |a| < |b| || (|a| == |b| && LexLess(a, b))
  {
    LongerKeyLongerCode(a, b);
    LongerKeyLongerCode(b, a);
    if |a| == |b| {
      LexCommonPrefix(HeadBytes(3, |a|), a, b);
    }
  }

  lemma {:induction false} BigEndianAscends(m: nat, n: nat, width: nat)
    requires m < n < Pow256(width)
    ensures LexLess(BigEndian(m, width), BigEndian(n, width))
    decreases width
  {
    var x, y := BigEndian(m / 256, width - 1), BigEndian(n / 256, width - 1);
    if m / 256 < n / 256 {
      BigEndianAscends(m / 256, n / 256, width - 1);
      LexHeadsDecide(x, y, [m % 256], [n % 256]);
    } else {
      assert x == y;
      LexCommonPrefix(x, [m % 256], [n % 256]);
    }
  }

  lemma TextHeadsAscend(m: nat, n: nat, a: seq<byte>, b: seq<byte>)
    requires m < n < TWO_TO_THE_64
    ensures LexLess(HeadBytes(3, m) + a, HeadBytes(3, n) + b)
  {
    hide BigEndian, Pow256;
    var x, y := HeadBytes(3, m), HeadBytes(3, n);
    if x[0] == y[0] && m >= 24 {
      var w := ArgumentWidth(ShortInfo(m));
      WordSizes();
      BigEndianAscends(m, n, w);
      assert x == [x[0]] + BigEndian(m, w) && y == [x[0]] + BigEndian(n, w);
      LexCommonPrefix([x[0]], BigEndian(m, w), BigEndian(n, w));
      LexHeadsDecide(x, y, a, b);
    } else {
      assert (x + a)[0] == x[0] && (y + b)[0] == y[0];
    }
  }

  /** On text keys length-first order and bytewise order of the encoded keys (section 4.2.1) are one order. */
  lemma ComparatorIsBytewise(a: seq<byte>, b: seq<byte>)
    requires |a| < TWO_TO_THE_64 && |b| < TWO_TO_THE_64
    ensures KeyLess(a, b) <==> LexLess(EncodedKey(a), EncodedKey(b))
  {
    hide HeadBytes;
    LongerKeyLongerCode(a, b);
    LongerKeyLongerCode(b, a);
    if |a| < |b| {
      TextHeadsAscend(|a|, |b|, a, b);
    } else if |b| < |a| {
      TextHeadsAscend(|b|, |a|, b, a);
      if LexLess(EncodedKey(a), EncodedKey(b)) {
        LexTransitive(EncodedKey(a), EncodedKey(b), EncodedKey(a));
        LexIrreflexive(EncodedKey(a));
      }
    }
  }

  /** Strictly ascending in the bytewise order of the encoded keys. */
  ghost predicate BytewiseAscending(keys: seq<seq<byte>>) {
    forall i, j :: 0 <= i < j < |keys| ==> LexLess(EncodedKey(keys[i]), EncodedKey(keys[j]))
  }

  /** The text keys of a map item, in the order they stand in it. */
  ghost function TextKeys(item: Item): (r: seq<seq<byte>>)
    requires item.MapItem? && forall p :: p in item.pairs ==> p.key.TextString?
  {
    seq(|item.pairs|, i requires 0 <= i < |item.pairs| => assert item.pairs[i] in item.pairs; item.pairs[i].key.text)
  }

  lemma KeysAreText(v: Value)
    requires v.Map?
    ensures Denote(v).MapItem? && forall p :: p in Denote(v).pairs ==> p.key.TextString?
    ensures TextKeys(Denote(v)) == KeyOrder(v.fields.Keys)
  {
    hide KeyOrder;
    var keys := KeyOrder(v.fields.Keys);
    var pairs := DenotedPairs(v);
    forall i | 0 <= i < |pairs| ensures pairs[i].key == TextString(keys[i]) {
      assert keys[i] in keys;
    }
    forall p | p in pairs ensures p.key.TextString? {
      var i :| 0 <= i < |pairs| && pairs[i] == p;
      assert pairs[i].key == TextString(keys[i]);
    }
  }

  /** Every emitted map lists exactly its keys, strictly ascending in the bytewise order of their encodings. */
  lemma MapsAscend(v: Value)
    requires Fits(v) && v.Map?
    ensures Denote(v).MapItem? && forall p :: p in Denote(v).pairs ==> p.key.TextString?
    ensures BytewiseAscending(TextKeys(Denote(v)))
    ensures forall k :: k in TextKeys(Denote(v)) <==> k in v.fields
  {
    hide KeyOrder, EncodedKey, LexLess, KeyLess, Denote;
    var keys := KeyOrder(v.fields.Keys);
    KeysAreText(v);
    KeyOrderAscending(v.fields.Keys);
    forall i, j | 0 <= i < j < |keys| ensures LexLess(EncodedKey(keys[i]), EncodedKey(keys[j])) {
      assert keys[i] in keys && keys[j] in keys && KeyLess(keys[i], keys[j]);
      ComparatorIsBytewise(keys[i], keys[j]);
    }
  }

  /** That order leaves no choice: every ascending listing of the keys is the one the encoder writes. */
  lemma OneAscendingOrder(v: Value, listing: seq<seq<byte>>)
    requires Fits(v) && v.Map?
    requires BytewiseAscending(listing) && forall k :: k in listing <==> k in v.fields
    ensures listing == KeyOrder(v.fields.Keys)
  {
    hide KeyOrder, EncodedKey, LexLess, KeyLess;
    forall i, j | 0 <= i < j < |listing| ensures KeyLess(listing[i], listing[j]) {
      assert listing[i] in listing && listing[j] in listing;
      ComparatorIsBytewise(listing[i], listing[j]);
    }
    KeyLessIsStrict();
    KeyOrderAscending(v.fields.Keys);
    AscendingUnique(listing, KeyOrder(v.fields.Keys), KeyLess);
  }

  // --- Recognising an accepted registration ---------------------------------

  ghost predicate Mentions(item: Item, x: Item)
    decreases item
  {
    item == x ||
    match item
    case ArrayItem(items) => exists i :: 0 <= i < |items| && Mentions(items[i], x)
    case MapItem(pairs) => exists i :: 0 <= i < |pairs| && (Mentions(pairs[i].key, x) || Mentions(pairs[i].value, x))
    case Tagged(_, content) => Mentions(content, x)
    case _ => false
  }

  /** What is left after reading came from the bytes read. */
  ghost predicate LeftOver(rest: seq<byte>, b: seq<byte>) {
    forall x :: x in rest ==> x in b
  }

  lemma {:induction false} DecodeLeaves(b: seq<byte>)
    requires Decode(b).Some?
    ensures LeftOver(Decode(b).value.1, b)
    decreases |b|, 0
  {
    var (h, middle) := ReadHead(b).value;
    match h.major
    case 4 => ItemsLeave(h.argument, middle);
    case 5 => PairsLeave(h.argument, middle);
    case 6 => DecodeLeaves(middle);
    case _ =>
  }

  lemma {:induction false} ItemsLeave(n: nat, b: seq<byte>)
    requires DecodeItems(n, b).Some?
    ensures LeftOver(DecodeItems(n, b).value.1, b)
    decreases |b|, n + 1
  {
    hide ReadHead;
    if n > 0 {
      DecodeLeaves(b);
      ItemsLeave(n - 1, Decode(b).value.1);
    }
  }

  lemma {:induction false} PairsLeave(n: nat, b: seq<byte>)
    requires DecodePairs(n, b).Some?
    ensures LeftOver(DecodePairs(n, b).value.1, b)
    decreases |b|, n + 1
  {
    hide ReadHead;
    if n > 0 {
      DecodeLeaves(b);
      DecodeLeaves(Decode(b).value.1);
      PairsLeave(n - 1, Decode(Decode(b).value.1).value.1);
    }
  }

  /** Every well-formed encoding of an item with a `true` in it contains the byte 0xf5, whoever wrote it. */
  lemma {:induction false} TrueIsVisible(b: seq<byte>)
    requires Decode(b).Some? && Mentions(Decode(b).value.0, TRUE)
    ensures 0xf5 in b
    decreases |b|, 0
  {
    hide ReadHead, DecodeItems, DecodePairs;
    var (h, middle) := ReadHead(b).value;
    HeadLeaves(b);
    if Decode(b).value.0 == TRUE {
      TrueIsItself(b);
    } else {
      match h.major
      case 4 => TrueInItems(h.argument, middle);
      case 5 => TrueInPairs(h.argument, middle);
      case 6 => TrueIsVisible(middle);
      case _ =>
    }
  }

  lemma HeadLeaves(b: seq<byte>)
    ensures ReadHead(b).Some? ==> LeftOver(ReadHead(b).value.1, b)
  {
    hide Number;
  }

  lemma TrueIsItself(b: seq<byte>)
    requires Decode(b).Some? && Decode(b).value.0 == TRUE
    ensures 0xf5 in b
  {
    hide Number, DecodeItems, DecodePairs;
    assert b[0] in b;
  }

  lemma {:induction false} TrueInItems(n: nat, b: seq<byte>)
    requires DecodeItems(n, b).Some?
    requires Mentions(ArrayItem(DecodeItems(n, b).value.0), TRUE)
    ensures 0xf5 in b
    decreases |b|, n + 1
  {
    hide ReadHead;
    var items := DecodeItems(n, b).value.0;
    var i :| 0 <= i < |items| && Mentions(items[i], TRUE);
    var rest := Decode(b).value.1;
    DecodeLeaves(b);
    if i == 0 {
      TrueIsVisible(b);
    } else {
      assert items[i] == DecodeItems(n - 1, rest).value.0[i - 1];
      TrueInItems(n - 1, rest);
    }
  }

  lemma {:induction false} TrueInPairs(n: nat, b: seq<byte>)
    requires DecodePairs(n, b).Some?
    requires Mentions(MapItem(DecodePairs(n, b).value.0), TRUE)
    ensures 0xf5 in b
    decreases |b|, n + 1
  {
    hide ReadHead;
    var pairs := DecodePairs(n, b).value.0;
    var i :| 0 <= i < |pairs| && (Mentions(pairs[i].key, TRUE) || Mentions(pairs[i].value, TRUE));
    var afterKey := Decode(b).value.1;
    var rest := Decode(afterKey).value.1;
    DecodeLeaves(b);
    DecodeLeaves(afterKey);
    if i == 0 {
      if Mentions(pairs[0].key, TRUE) {
        TrueIsVisible(b);
      } else {
        TrueIsVisible(afterKey);
      }
    } else {
      assert pairs[i] == DecodePairs(n - 1, rest).value.0[i - 1];
      TrueInPairs(n - 1, rest);
    }
  }
}
