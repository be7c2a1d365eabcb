/**
 * Between the daemon's values and the dashboard's: how a decoded data item looks to the schema parser, how a value of
 * the schema is written by the daemon, and that the first undoes the second for every nested value.
 */
module CborBridge {
  import opened Wrappers
  import opened CborFormat
  import D = DaemonMessages
  import E = CborEncoder
  import T = CborTheorems
  import opened TelemetryTypes
  import opened TelemetrySchema

  /** The decoding of strings and floating point numbers. */
  datatype Reader = Reader(text: seq<byte> -> string, number: Item -> Double) {
    /** Plain ASCII is read as it stands, as UTF-8 demands. */
    ghost predicate ReadsAscii() {
      forall s: string :: (forall c :: c in s ==> c as int < 128) ==> text(D.Ascii(s)) == s
    }
  }

  // --- A data item as the schema parser sees it --------------------------------

  function Presented(r: Reader, item: Item): Cbor
    decreases item, 1
  {
    match item
    case UnsignedInteger(n) => if n <= MAX_INTEGER then Integer(n) else Float(Finite(n as real))
    case NegativeInteger(n) => if n <= MAX_INTEGER then Integer(-1 - n) else Float(Finite(-1.0 - n as real))
    case ByteString(bytes) => ByteArray(bytes)
    case TextString(text) => Text(r.text(text))
    case ArrayItem(items) => Array(seq(|items|, i requires 0 <= i < |items| => Presented(r, items[i])))
    case MapItem(pairs) => Map(PresentedFields(r, item, |pairs|))
    case Simple(n) =>
      if n == 20 then Bool(false) else if n == 21 then Bool(true) else if n == 23 then Undefined else Other
    case Tagged(_, _) => Other
    case _ => Float(r.number(item))
  }

  /** The first `n` pairs of a map item; pairs whose key is no text are not looked at by the schema. */
  function PresentedFields(r: Reader, item: Item, n: nat): Fields
    requires item.MapItem? && n <= |item.pairs|
    decreases item, 0, n
  {
    if n == 0 then map[]
    else
      var before, pair := PresentedFields(r, item, n - 1), item.pairs[n - 1];
      if pair.key.TextString? then before[r.text(pair.key.text) := Presented(r, pair.value)] else before
  }

  /** What an absent or present field reads as. */
  function PresentedOr(r: Reader, found: Option<Item>): Cbor {
    if found.Some? then Presented(r, found.value) else Undefined
  }

  // --- A value of the schema as the daemon writes it ------------------------------

  /** The encoding of strings and floating point numbers. */
  datatype Writer = Writer(text: string -> seq<byte>, bits: Double -> uint64) {
    ghost predicate KeepsTexts() {
      forall s, t :: text(s) == text(t) ==> s == t
    }
  }

  /** Every string comes back, so that no two are written alike. */
  ghost predicate Matched(r: Reader, w: Writer) {
    w.KeepsTexts() && forall s :: r.text(w.text(s)) == s
  }

  /** The number comes back: its bits are those of the double. */
  predicate Survives(r: Reader, w: Writer, x: Double) {
    r.number(DoubleFloat(w.bits(x))) == x
  }

  /** Everything in it is of a kind that the daemon's values have. */
  ghost predicate Printable(c: Cbor) {
    match c
    case Integer(n) => n >= 0
    case Array(items) => forall i :: 0 <= i < |items| ==> Printable(items[i])
    case Map(fields) => forall k :: k in fields ==> Printable(fields[k])
    case Undefined => false
    case Other => false
    case _ => true
  }

  /** The daemon's value; of the kinds that are not printable it has none, and they are written as false. */
  ghost function Written(w: Writer, c: Cbor): E.Value
    requires w.KeepsTexts()
  {
    match c
    case Integer(n) => if n >= 0 then E.Unsigned(n) else E.Boolean(false)
    case Float(x) => E.Float(w.bits(x))
    case Text(s) => E.Text(w.text(s))
    case ByteArray(bytes) => E.Bytes(bytes)
    case Bool(flag) => E.Boolean(flag)
    case Array(items) => E.Array(seq(|items|, i requires 0 <= i < |items| => Written(w, items[i])))
    case Map(fields) =>
      E.Map(map k | k in (set s | s in fields :: w.text(s)) :: Written(w, fields[Spelled(w, fields, k)]))
    case _ => E.Boolean(false)
  }

  /** The key of these fields that is written so. */
  ghost function Spelled(w: Writer, fields: Fields, k: seq<byte>): (s: string)
    requires exists s :: s in fields && w.text(s) == k
    ensures s in fields && w.text(s) == k
  {
    var s :| s in fields && w.text(s) == k;
    s
  }

  /** Every number in it is a double. */
  ghost predicate NumbersSurvive(r: Reader, w: Writer, c: Cbor) {
    match c
    case Float(x) => Survives(r, w, x)
    case Array(items) => forall i :: 0 <= i < |items| ==> NumbersSurvive(r, w, items[i])
    case Map(fields) => forall k :: k in fields ==> NumbersSurvive(r, w, fields[k])
    case _ => true
  }

  // --- Reading undoes writing --------------------------------------------------------

  /** What the dashboard sees of a value that the daemon wrote, nested as deeply as it may be, is that value. */
  lemma {:induction false} ReadingUndoesWriting(r: Reader, w: Writer, c: Cbor)
    requires Matched(r, w) && Printable(c) && NumbersSurvive(r, w, c)
    ensures Presented(r, T.Denote(Written(w, c))) == c
    decreases c, 1
  {
    match c
    case Array(items) => ItemsBack(r, w, c);
    case Map(fields) =>
      var v := Written(w, c);
      FieldsBack(r, w, c, |v.fields|);
      FieldsAreAll(r, w, c);
    case _ =>
  }

  lemma {:induction false} ItemsBack(r: Reader, w: Writer, c: Cbor)
    requires c.Array? && Matched(r, w) && Printable(c) && NumbersSurvive(r, w, c)
    ensures Presented(r, T.Denote(Written(w, c))) == c
    decreases c, 0
  {
    var v := Written(w, c);
    forall i | 0 <= i < |c.items| ensures Presented(r, T.DenotedItems(v)[i]) == c.items[i] {
      ReadingUndoesWriting(r, w, c.items[i]);
    }
    var shown := Presented(r, T.Denote(v));
    assert shown.items == c.items;
  }

  /** These are the fields of the first n keys. */
  ghost predicate FirstFields(w: Writer, fields: Fields, keys: seq<seq<byte>>, n: nat, shown: Fields) {
    && n <= |keys|
    && (forall s :: s in shown <==> s in fields && w.text(s) in keys[..n])
    && (forall s :: s in shown ==> s in fields && shown[s] == fields[s])
  }

  lemma OneMoreField(w: Writer, fields: Fields, keys: seq<seq<byte>>, n: nat, shown: Fields, s: string)
    requires w.KeepsTexts() && n < |keys| && FirstFields(w, fields, keys, n, shown)
    requires s in fields && keys[n] == w.text(s)
    ensures FirstFields(w, fields, keys, n + 1, shown[s := fields[s]])
  {
    assert keys[..n + 1] == keys[..n] + [keys[n]];
  }

  lemma WrittenPair(w: Writer, c: Cbor, i: nat) returns (s: string)
    requires c.Map? && w.KeepsTexts() && i < |Written(w, c).fields|
    ensures var v := Written(w, c);
      var keys, item := E.KeyOrder(v.fields.Keys), T.Denote(v);
      && item.MapItem? && |item.pairs| == |keys| == |v.fields|
      && s in c.fields && keys[i] == w.text(s)
      && item.pairs[i] == Pair(TextString(keys[i]), T.Denote(Written(w, c.fields[s])))
  {
    hide E.KeyOrder, T.Denote;
    var v := Written(w, c);
    var keys := E.KeyOrder(v.fields.Keys);
    D.MapDenotesPairs(v);
    assert keys[i] in keys;
    s :| s in c.fields && keys[i] == w.text(s);
    WrittenField(w, c, s);
  }

  lemma WrittenField(w: Writer, c: Cbor, s: string)
    requires c.Map? && w.KeepsTexts() && s in c.fields
    ensures var v := Written(w, c);
      v.Map? && w.text(s) in v.fields && v.fields[w.text(s)] == Written(w, c.fields[s])
  {
    assert w.text(s) in Written(w, c).fields;
    assert Spelled(w, c.fields, w.text(s)) == s;
  }

  lemma WrittenIsMap(w: Writer, c: Cbor)
    requires c.Map? && w.KeepsTexts()
    ensures Written(w, c).Map?
  {
  }

  lemma {:induction false} FieldsBack(r: Reader, w: Writer, c: Cbor, n: nat)
    requires c.Map? && Matched(r, w) && Printable(c) && NumbersSurvive(r, w, c)
    requires n <= |Written(w, c).fields|
    ensures var v := Written(w, c);
      var keys, item := E.KeyOrder(v.fields.Keys), T.Denote(v);
      && item.MapItem? && |item.pairs| == |keys| == |v.fields|
      && FirstFields(w, c.fields, keys, n, PresentedFields(r, item, n))
    decreases c, 0, n
  {
    hide E.KeyOrder, T.Denote, Presented, FirstFields, Written;
    WrittenIsMap(w, c);
    var v := Written(w, c);
    var keys, item := E.KeyOrder(v.fields.Keys), T.Denote(v);
    D.MapDenotesPairs(v);
    if n == 0 {
      NoFieldsYet(w, c.fields, keys);
    } else {
      FieldsBack(r, w, c, n - 1);
      var s := WrittenPair(w, c, n - 1);
      ReadingUndoesWriting(r, w, c.fields[s]);
      OneMoreField(w, c.fields, keys, n - 1, PresentedFields(r, item, n - 1), s);
    }
  }

  lemma NoFieldsYet(w: Writer, fields: Fields, keys: seq<seq<byte>>)
    ensures FirstFields(w, fields, keys, 0, map[])
  {
  }

  lemma FieldsAreAll(r: Reader, w: Writer, c: Cbor)
    requires c.Map? && w.KeepsTexts()
    requires var v := Written(w, c);
      var keys, item := E.KeyOrder(v.fields.Keys), T.Denote(v);
      && item.MapItem? && |item.pairs| == |keys| == |v.fields|
      && FirstFields(w, c.fields, keys, |keys|, PresentedFields(r, item, |keys|))
    ensures Presented(r, T.Denote(Written(w, c))) == c
  {
    hide E.KeyOrder, T.Denote, PresentedFields;
    var v := Written(w, c);
    var keys, item := E.KeyOrder(v.fields.Keys), T.Denote(v);
    assert keys[..|keys|] == keys;
    var shown := PresentedFields(r, item, |keys|);
    forall s ensures s in shown <==> s in c.fields {
      if s in c.fields {
        assert w.text(s) in v.fields.Keys;
      }
    }
    assert shown == c.fields;
  }
}
