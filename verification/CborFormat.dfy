/**
 * A reader for CBOR data items, written from sections 3 and 3.1 of RFC 8949 and from nothing in the daemon:
 * it is the independent meaning against which the daemon's encoder is proved.
 * Indefinite lengths (section 3.2) are not read; the daemon never writes them.
 */
module CborFormat {
  import opened Wrappers

  type byte = b: int | 0 <= b < 256

  const TWO_TO_THE_64 := 0x1_0000_0000_0000_0000

  type uint64 = n: int | 0 <= n < TWO_TO_THE_64

  /** A well-formed data item. Floating point numbers are kept as their bit patterns. */
  datatype Item =
    | UnsignedInteger(n: nat)
    | NegativeInteger(n: nat)
    | ByteString(bytes: seq<byte>)
    | TextString(text: seq<byte>)
    | ArrayItem(items: seq<Item>)
    | MapItem(pairs: seq<Pair>)
    | Tagged(tag: nat, content: Item)
    | Simple(n: nat)
    | HalfFloat(bits: nat)
    | SingleFloat(bits: nat)
    | DoubleFloat(bits: nat)

  datatype Pair = Pair(key: Item, value: Item)

  const FALSE := Simple(20)
  const TRUE := Simple(21)

  // --- Big-endian numbers ---------------------------------------------------

  function Pow256(k: nat): (p: nat)
    ensures p > 0
  {
    if k == 0 then 1 else 256 * Pow256(k - 1)
  }

  /** The low `width` bytes of `n`, most significant first. */
  function BigEndian(n: nat, width: nat): (r: seq<byte>)
    ensures |r| == width
    decreases width
  {
    if width == 0 then [] else BigEndian(n / 256, width - 1) + [n % 256]
  }

  function Number(b: seq<byte>): nat {
    if b == [] then 0 else Number(b[..|b| - 1]) * 256 + b[|b| - 1]
  }

  lemma {:induction false} NumberOfBigEndian(n: nat, width: nat)
    requires n < Pow256(width)
    ensures Number(BigEndian(n, width)) == n
    decreases width
  {
    if width > 0 {
      NumberOfBigEndian(n / 256, width - 1);
      var r := BigEndian(n, width);
      assert r[..|r| - 1] == BigEndian(n / 256, width - 1);
    }
  }

  lemma {:induction false} BigEndianOfNumber(b: seq<byte>)
    ensures Number(b) < Pow256(|b|)
    ensures BigEndian(Number(b), |b|) == b
  {
    if b != [] {
      BigEndianOfNumber(b[..|b| - 1]);
      assert Number(b) / 256 == Number(b[..|b| - 1]) && Number(b) % 256 == b[|b| - 1];
    }
  }

  lemma WordSizes()
    ensures Pow256(1) == 0x100 && Pow256(2) == 0x1_0000 && Pow256(4) == 0x1_0000_0000
    ensures Pow256(8) == TWO_TO_THE_64
  {
    assert Pow256(3) == 0x100_0000;
    assert Pow256(5) == 0x100_0000_0000 && Pow256(6) == 0x1_0000_0000_0000 && Pow256(7) == 0x100_0000_0000_0000;
  }

  // --- Section 3: the head of a data item -----------------------------------

  datatype Head = Head(major: nat, info: nat, argument: nat)

  /** How many bytes after the initial one hold the argument. */
  function ArgumentWidth(info: nat): nat {
    if info < 24 then 0 else if info == 24 then 1 else if info == 25 then 2 else if info == 26 then 4 else 8
  }

  function ReadHead(b: seq<byte>): (r: Option<(Head, seq<byte>)>)
    ensures r.Some? ==> |r.value.1| < |b|
  {
    if b == [] then None
    else
      var major, info := b[0] / 32, b[0] % 32;
      var width := ArgumentWidth(info);
      if info >= 28 || |b| < 1 + width then None
      else Some((Head(major, info, if width == 0 then info else Number(b[1..1 + width])), b[1 + width..]))
  }

  // --- Section 3.1: the major types -----------------------------------------

  function Decode(b: seq<byte>): (r: Option<(Item, seq<byte>)>)
    ensures r.Some? ==> |r.value.1| < |b|
    decreases |b|, 0
  {
    match ReadHead(b)
    case None => None
    case Some((h, rest)) =>
      match h.major
      case 0 => Some((UnsignedInteger(h.argument), rest))
      case 1 => Some((NegativeInteger(h.argument), rest))
      case 2 =>
        if h.argument <= |rest| then Some((ByteString(rest[..h.argument]), rest[h.argument..])) else None
      case 3 =>
        if h.argument <= |rest| then Some((TextString(rest[..h.argument]), rest[h.argument..])) else None
      case 4 =>
        (match DecodeItems(h.argument, rest)
         case None => None
         case Some((items, tail)) => Some((ArrayItem(items), tail)))
      case 5 =>
        (match DecodePairs(h.argument, rest)
         case None => None
         case Some((pairs, tail)) => Some((MapItem(pairs), tail)))
      case 6 =>
        (match Decode(rest)
         case None => None
         case Some((content, tail)) => Some((Tagged(h.argument, content), tail)))
      case _ =>
        match h.info
        case 24 => if h.argument < 32 then None else Some((Simple(h.argument), rest))
        case 25 => Some((HalfFloat(h.argument), rest))
        case 26 => Some((SingleFloat(h.argument), rest))
        case 27 => Some((DoubleFloat(h.argument), rest))
        case _ => Some((Simple(h.argument), rest))
  }

  function DecodeItems(n: nat, b: seq<byte>): (r: Option<(seq<Item>, seq<byte>)>)
    ensures r.Some? ==> |r.value.1| <= |b|
    decreases |b|, n + 1
  {
    if n == 0 then Some(([], b))
    else
      match Decode(b)
      case None => None
      case Some((first, rest)) =>
        match DecodeItems(n - 1, rest)
        case None => None
        case Some((others, tail)) => Some(([first] + others, tail))
  }

  function DecodePairs(n: nat, b: seq<byte>): (r: Option<(seq<Pair>, seq<byte>)>)
    ensures r.Some? ==> |r.value.1| <= |b|
    decreases |b|, n + 1
  {
    if n == 0 then Some(([], b))
    else
      match Decode(b)
      case None => None
      case Some((key, rest)) =>
        match Decode(rest)
        case None => None
        case Some((value, more)) =>
          match DecodePairs(n - 1, more)
          case None => None
          case Some((others, tail)) => Some(([Pair(key, value)] + others, tail))
  }
}
