/**
 * The part of the MessagePack specification the protocol rests on ("Formats" and
 * "Serialization: type to format conversion"): a reader for arbitrary nested objects and a
 * writer that always picks the smallest format.
 */
module MsgPack {
  import opened Base

  datatype Entry = Entry(key: Object, val: Object)

  datatype Object =
    | Nil
    | Boolean(flag: bool)
    | PosInt(magnitude: nat)
    | NegInt(number: int)
    | Float(bits: Bytes)
    | Str(text: Bytes)
    | Bin(blob: Bytes)
    | Ext(typed: Bytes)          // type byte followed by the data
    | Array(items: seq<Object>)
    | Map(entries: seq<Entry>)

  // The outcomes of msgpack_unpack_next, without the memory failure.
  datatype ReadResult<+T> =
    | Success(value: T, rest: Bytes)
    | Continue
    | ParseError

  // ---------------------------------------------------------------- big-endian numbers

  function BigEndian(b: Bytes): nat {
    if b == [] then 0 else BigEndian(b[..|b| - 1]) * 0x100 + b[|b| - 1]
  }

  function Power256(k: nat): nat {
    if k == 0 then 1 else 0x100 * Power256(k - 1)
  }

  function ToBytes(n: nat, k: nat): (b: Bytes)
    ensures |b| == k
  {
    if k == 0 then [] else ToBytes(n / 0x100, k - 1) + [n % 0x100]
  }

  lemma {:induction false} BigEndianOfToBytes(n: nat, k: nat)
    requires n < Power256(k)
    ensures BigEndian(ToBytes(n, k)) == n
  {
    if k > 0 {
      BigEndianOfToBytes(n / 0x100, k - 1);
      var b := ToBytes(n, k);
      assert b[..k - 1] == ToBytes(n / 0x100, k - 1);
    }
  }

  lemma {:induction false} BigEndianBound(b: Bytes)
    ensures BigEndian(b) < Power256(|b|)
  {
    if b != [] {
      BigEndianBound(b[..|b| - 1]);
    }
  }

  lemma Powers()
    ensures Power256(0) == 1 && Power256(1) == 0x100 && Power256(2) == 0x1_0000
    ensures Power256(4) == 0x1_0000_0000 && Power256(8) == 0x1_0000_0000_0000_0000
  {
    assert Power256(3) == 0x100_0000;
    assert Power256(6) == 0x1_0000_0000_0000;
  }

  // ---------------------------------------------------------------- reading

  datatype Shape = LeafShape | ArrayShape | MapShape

  // What the first byte announces: `lenBytes` bytes of length follow, and the body holds
  // `base` plus that length bytes (leaf), items (array) or pairs (map).
  datatype Format = Reserved | Format(shape: Shape, lenBytes: nat, base: nat)

  function FormatOf(first: Byte): Format {
    if first <= 0x7f || 0xe0 <= first then Format(LeafShape, 0, 0)
    else if first <= 0x8f then Format(MapShape, 0, first - 0x80)
    else if first <= 0x9f then Format(ArrayShape, 0, first - 0x90)
    else if first <= 0xbf then Format(LeafShape, 0, first - 0xa0)
    else if first == 0xc1 then Reserved
    else if first <= 0xc3 then Format(LeafShape, 0, 0)
    else if first <= 0xc6 then Format(LeafShape, [1, 2, 4][first - 0xc4], 0)
    else if first <= 0xc9 then Format(LeafShape, [1, 2, 4][first - 0xc7], 1)
    else if first <= 0xcb then Format(LeafShape, 0, [4, 8][first - 0xca])
    else if first <= 0xcf then Format(LeafShape, 0, [1, 2, 4, 8][first - 0xcc])
    else if first <= 0xd3 then Format(LeafShape, 0, [1, 2, 4, 8][first - 0xd0])
    else if first <= 0xd8 then Format(LeafShape, 0, [2, 3, 5, 9, 17][first - 0xd4])
    else if first <= 0xdb then Format(LeafShape, [1, 2, 4][first - 0xd9], 0)
    else if first <= 0xdd then Format(ArrayShape, [2, 4][first - 0xdc], 0)
    else Format(MapShape, [2, 4][first - 0xde], 0)
  }

  // Signed formats: a non-negative number is reported as a positive integer.
  function Signed(n: nat, limit: nat): Object {
    if 2 * n < limit then PosInt(n) else NegInt(n - limit)
  }

  function LeafObject(first: Byte, body: Bytes): Object {
    if first <= 0x7f then PosInt(first)
    else if 0xe0 <= first then NegInt(first - 0x100)
    else if first <= 0xbf || 0xd9 <= first then Str(body)
    else if first == 0xc0 then Nil
    else if first <= 0xc3 then Boolean(first == 0xc3)
    else if first <= 0xc6 then Bin(body)
    else if first <= 0xc9 then Ext(body)
    else if first <= 0xcb then Float(body)
    else if first <= 0xcf then PosInt(BigEndian(body))
    else if first <= 0xd3 then Signed(BigEndian(body), Power256(|body|))
    else Ext(body)
  }

  function Pairs(items: seq<Object>): (entries: seq<Entry>)
    ensures |entries| == |items| / 2
    ensures forall i :: 0 <= i < |entries| ==> entries[i] == Entry(items[2 * i], items[2 * i + 1])
  {
    seq(|items| / 2, i requires 0 <= i < |items| / 2 => Entry(items[2 * i], items[2 * i + 1]))
  }

  // One object from the front of the bytes.
  function Read(b: Bytes): (r: ReadResult<Object>)
    ensures r.Success? ==> |r.rest| < |b|
    decreases |b|, 0
  {
    if b == [] then Continue
    else
      var format := FormatOf(b[0]);
      if format.Reserved? then ParseError
      else if |b| < 1 + format.lenBytes then Continue
      else
        var n := format.base + BigEndian(b[1..1 + format.lenBytes]);
        var body := b[1 + format.lenBytes..];
        match format.shape
        case LeafShape =>
          if |body| < n then Continue else Success(LeafObject(b[0], body[..n]), body[n..])
        case ArrayShape =>
          (match ReadMany(n, body)
           case Success(items, rest) => Success(Array(items), rest)
           case Continue => Continue
           case ParseError => ParseError)
        case MapShape =>
          (match ReadMany(2 * n, body)
           case Success(items, rest) => Success(Map(Pairs(items)), rest)
           case Continue => Continue
           case ParseError => ParseError)
  }

  // `n` objects, one after the other.
  function ReadMany(n: nat, b: Bytes): (r: ReadResult<seq<Object>>)
    ensures r.Success? ==> |r.rest| <= |b| && |r.value| == n
    decreases |b|, 1
  {
    if n == 0 then Success([], b)
    else
      match Read(b)
      case Continue => Continue
      case ParseError => ParseError
      case Success(first, rest) =>
        match ReadMany(n - 1, rest)
        case Continue => Continue
        case ParseError => ParseError
        case Success(others, rest') => Success([first] + others, rest')
  }

  // A verdict never changes when more bytes arrive.
  ghost predicate Extends<T>(short: ReadResult<T>, long: ReadResult<T>, tail: Bytes) {
    match short
    case Success(value, rest) => long == Success(value, rest + tail)
    case ParseError => long == ParseError
    case Continue => true
  }

  lemma HeaderExtends(b: Bytes, tail: Bytes, k: nat)
    requires 1 <= k <= |b|
    ensures (b + tail)[0] == b[0] && (b + tail)[1..k] == b[1..k] && (b + tail)[k..] == b[k..] + tail
  {
  }

  lemma BodyExtends(body: Bytes, tail: Bytes, n: nat)
    requires n <= |body|
    ensures (body + tail)[..n] == body[..n] && (body + tail)[n..] == body[n..] + tail
  {
  }

  lemma {:induction false} ReadExtends(b: Bytes, tail: Bytes)
    ensures Extends(Read(b), Read(b + tail), tail)
    decreases |b|, 0
  {
    if b != [] && !FormatOf(b[0]).Reserved? && |b| >= 1 + FormatOf(b[0]).lenBytes {
      var format := FormatOf(b[0]);
      var k := 1 + format.lenBytes;
      var n := format.base + BigEndian(b[1..k]);
      HeaderExtends(b, tail, k);
      match format.shape {
        case LeafShape =>
          if n <= |b[k..]| { BodyExtends(b[k..], tail, n); }
        case ArrayShape => ReadManyExtends(n, b[k..], tail);
        case MapShape => ReadManyExtends(2 * n, b[k..], tail);
      }
    }
  }

  lemma {:induction false} ReadManyExtends(n: nat, b: Bytes, tail: Bytes)
    ensures Extends(ReadMany(n, b), ReadMany(n, b + tail), tail)
    decreases |b|, 1
  {
    if n > 0 {
      ReadExtends(b, tail);
      if Read(b).Success? {
        ReadManyExtends(n - 1, Read(b).rest, tail);
      }
    }
  }

  // The code is prefix free: cut anywhere, a complete object reads as incomplete.
  lemma {:induction false} StrictPrefixContinues(b: Bytes, k: nat)
    requires k < |b| && Read(b).Success? && Read(b).rest == []
    ensures Read(b[..k]) == Continue
  {
    ReadExtends(b[..k], b[k..]);
    assert b[..k] + b[k..] == b;
  }

  // ---------------------------------------------------------------- writing

  const LIMIT_32: nat := 0x1_0000_0000
  const LIMIT_64: nat := 0x1_0000_0000_0000_0000

  // The objects the writer knows: what a msgpack packer is asked for in this protocol,
  // closed under nesting, with the length limits of the formats.
  predicate Packable(o: Object) {
    match o
    case Nil => true
    case Boolean(_) => true
    case PosInt(n) => n < LIMIT_64
    case NegInt(i) => -(LIMIT_64 / 2) <= i < 0
    case Str(s) => |s| < LIMIT_32
    case Array(items) => |items| < LIMIT_32 && forall i :: 0 <= i < |items| ==> Packable(items[i])
    case Map(entries) =>
      |entries| < LIMIT_32
      && forall i :: 0 <= i < |entries| ==> Packable(entries[i].key) && Packable(entries[i].val)
    case _ => false
  }

  function UnsignedBytes(n: nat): Bytes
    requires n < LIMIT_64
  {
    if n < 0x80 then [n]
    else if n < 0x100 then [0xcc] + ToBytes(n, 1)
    else if n < 0x1_0000 then [0xcd] + ToBytes(n, 2)
    else if n < LIMIT_32 then [0xce] + ToBytes(n, 4)
    else [0xcf] + ToBytes(n, 8)
  }

  function NegativeBytes(i: int): Bytes
    requires -(LIMIT_64 / 2) <= i < 0
  {
    if -0x20 <= i then [0x100 + i]
    else if -0x80 <= i then [0xd0] + ToBytes(0x100 + i, 1)
    else if -0x8000 <= i then [0xd1] + ToBytes(0x1_0000 + i, 2)
    else if -0x8000_0000 <= i then [0xd2] + ToBytes(LIMIT_32 + i, 4)
    else [0xd3] + ToBytes(LIMIT_64 + i, 8)
  }

  function StrHeader(n: nat): Bytes
    requires n < LIMIT_32
  {
    if n < 0x20 then [0xa0 + n]
    else if n < 0x100 then [0xd9] + ToBytes(n, 1)
    else if n < 0x1_0000 then [0xda] + ToBytes(n, 2)
    else [0xdb] + ToBytes(n, 4)
  }

  function ArrayHeader(n: nat): Bytes
    requires n < LIMIT_32
  {
    if n < 0x10 then [0x90 + n]
    else if n < 0x1_0000 then [0xdc] + ToBytes(n, 2)
    else [0xdd] + ToBytes(n, 4)
  }

  function MapHeader(n: nat): Bytes
    requires n < LIMIT_32
  {
    if n < 0x10 then [0x80 + n]
    else if n < 0x1_0000 then [0xde] + ToBytes(n, 2)
    else [0xdf] + ToBytes(n, 4)
  }

  function Encode(o: Object): Bytes
    requires Packable(o)
    decreases o, 0
  {
    match o
    case Nil => [0xc0]
    case Boolean(flag) => if flag then [0xc3] else [0xc2]
    case PosInt(n) => UnsignedBytes(n)
    case NegInt(i) => NegativeBytes(i)
    case Str(s) => StrHeader(|s|) + s
    case Array(items) => ArrayHeader(|items|) + EncodeMany(items)
    case Map(entries) => MapHeader(|entries|) + EncodeEntries(entries)
  }

  function EncodeMany(items: seq<Object>): Bytes
    requires forall i :: 0 <= i < |items| ==> Packable(items[i])
    decreases items, 0
  {
    if items == [] then [] else Encode(items[0]) + EncodeMany(items[1..])
  }

  function EncodeEntry(e: Entry): Bytes
    requires Packable(e.key) && Packable(e.val)
    decreases e, 0
  {
    Encode(e.key) + Encode(e.val)
  }

  function EncodeEntries(entries: seq<Entry>): Bytes
    requires forall i :: 0 <= i < |entries| ==> Packable(entries[i].key) && Packable(entries[i].val)
    decreases entries, 0
  {
    if entries == [] then [] else EncodeEntry(entries[0]) + EncodeEntries(entries[1..])
  }

  // ---------------------------------------------------------------- reader and writer agree

  // How a header followed by a body is read.
  lemma ReadHeader(header: Bytes, body: Bytes)
    requires header != [] && !FormatOf(header[0]).Reserved? && |header| == 1 + FormatOf(header[0]).lenBytes
    ensures (header + body)[0] == header[0]
    ensures (header + body)[1..|header|] == header[1..]
    ensures (header + body)[|header|..] == body
  {
  }

  function Count(header: Bytes): nat
    requires header != [] && FormatOf(header[0]).Format?
  {
    FormatOf(header[0]).base + BigEndian(header[1..])
  }

  // The header announces a body of this shape and count.
  predicate Announces(header: Bytes, shape: Shape, n: nat) {
    && header != [] && FormatOf(header[0]).Format? && FormatOf(header[0]).shape == shape
    && |header| == 1 + FormatOf(header[0]).lenBytes
    && Count(header) == n
  }

  lemma {:induction false} LengthAnnounces(first: Byte, n: nat, k: nat)
    requires FormatOf(first).Format? && FormatOf(first).lenBytes == k && FormatOf(first).base == 0
    requires n < Power256(k)
    ensures Announces([first] + ToBytes(n, k), FormatOf(first).shape, n)
  {
    BigEndianOfToBytes(n, k);
    assert ([first] + ToBytes(n, k))[1..] == ToBytes(n, k);
  }

  lemma ShortAnnounces(first: Byte)
    requires FormatOf(first).Format? && FormatOf(first).lenBytes == 0
    ensures Announces([first], FormatOf(first).shape, FormatOf(first).base)
  {
    assert [first][1..] == [];
  }

  lemma StrHeaderAnnounces(n: nat)
    requires n < LIMIT_32
    ensures Announces(StrHeader(n), LeafShape, n)
    ensures 0xa0 <= StrHeader(n)[0] <= 0xbf || 0xd9 <= StrHeader(n)[0] <= 0xdb
  {
    Powers();
    if n < 0x20 { ShortAnnounces(0xa0 + n); }
    else if n < 0x100 { LengthAnnounces(0xd9, n, 1); }
    else if n < 0x1_0000 { LengthAnnounces(0xda, n, 2); }
    else { LengthAnnounces(0xdb, n, 4); }
  }

  lemma ArrayHeaderAnnounces(n: nat)
    requires n < LIMIT_32
    ensures Announces(ArrayHeader(n), ArrayShape, n)
  {
    Powers();
    if n < 0x10 { ShortAnnounces(0x90 + n); }
    else if n < 0x1_0000 { LengthAnnounces(0xdc, n, 2); }
    else { LengthAnnounces(0xdd, n, 4); }
  }

  lemma MapHeaderAnnounces(n: nat)
    requires n < LIMIT_32
    ensures Announces(MapHeader(n), MapShape, n)
  {
    Powers();
    if n < 0x10 { ShortAnnounces(0x80 + n); }
    else if n < 0x1_0000 { LengthAnnounces(0xde, n, 2); }
    else { LengthAnnounces(0xdf, n, 4); }
  }

  lemma {:induction false} ReadStr(s: Bytes, tail: Bytes)
    requires |s| < LIMIT_32
    ensures Read(StrHeader(|s|) + s + tail) == Success(Str(s), tail)
  {
    StrHeaderAnnounces(|s|);
    ReadHeader(StrHeader(|s|), s + tail);
    assert StrHeader(|s|) + s + tail == StrHeader(|s|) + (s + tail);
    assert (s + tail)[..|s|] == s && (s + tail)[|s|..] == tail;
  }

  lemma {:induction false} ReadArray(items: seq<Object>, body: Bytes, tail: Bytes)
    requires |items| < LIMIT_32
    requires ReadMany(|items|, body) == Success(items, tail)
    ensures Read(ArrayHeader(|items|) + body) == Success(Array(items), tail)
  {
    ArrayHeaderAnnounces(|items|);
    ReadHeader(ArrayHeader(|items|), body);
  }

  lemma {:induction false} ReadMap(n: nat, items: seq<Object>, body: Bytes, tail: Bytes)
    requires n < LIMIT_32
    requires ReadMany(2 * n, body) == Success(items, tail)
    ensures Read(MapHeader(n) + body) == Success(Map(Pairs(items)), tail)
  {
    MapHeaderAnnounces(n);
    ReadHeader(MapHeader(n), body);
  }

  // A number in `k` bytes behind one of the sixteen integer formats.
  lemma {:induction false} ReadNumber(first: Byte, n: nat, k: nat, tail: Bytes)
    requires 0xcc <= first <= 0xd3 && FormatOf(first).base == k && n < Power256(k)
    ensures Read([first] + ToBytes(n, k) + tail)
         == Success(if first <= 0xcf then PosInt(n) else Signed(n, Power256(k)), tail)
  {
    BigEndianOfToBytes(n, k);
    ReadHeader([first], ToBytes(n, k) + tail);
    assert [first] + ToBytes(n, k) + tail == [first] + (ToBytes(n, k) + tail);
    assert (ToBytes(n, k) + tail)[..k] == ToBytes(n, k);
    assert (ToBytes(n, k) + tail)[k..] == tail;
    assert BigEndian([]) == 0;
  }

  // Formats that hold everything in their first byte.
  lemma {:induction false} ReadSingle(first: Byte, tail: Bytes)
    requires FormatOf(first) == Format(LeafShape, 0, 0)
    ensures Read([first] + tail) == Success(LeafObject(first, []), tail)
  {
    ReadHeader([first], tail);
    assert BigEndian([]) == 0;
    assert tail[..0] == [];
  }

  lemma {:induction false} ReadUnsigned(n: nat, tail: Bytes)
    requires n < LIMIT_64
    ensures Read(UnsignedBytes(n) + tail) == Success(PosInt(n), tail)
  {
    Powers();
    if n < 0x80 {
      ReadSingle(n, tail);
    } else if n < 0x100 {
      ReadNumber(0xcc, n, 1, tail);
    } else if n < 0x1_0000 {
      ReadNumber(0xcd, n, 2, tail);
    } else if n < LIMIT_32 {
      ReadNumber(0xce, n, 4, tail);
    } else {
      ReadNumber(0xcf, n, 8, tail);
    }
  }

  lemma {:induction false} ReadSigned(first: Byte, i: int, k: nat, tail: Bytes)
    requires 0xd0 <= first <= 0xd3 && FormatOf(first).base == k
    requires i < 0 <= 2 * i + Power256(k)
    ensures Read([first] + ToBytes(Power256(k) + i, k) + tail) == Success(NegInt(i), tail)
  {
    var n := Power256(k) + i;
    assert 0 <= n < Power256(k) && Signed(n, Power256(k)) == NegInt(i);
    ReadNumber(first, n, k, tail);
  }

  lemma {:induction false} ReadNegative(i: int, tail: Bytes)
    requires -(LIMIT_64 / 2) <= i < 0
    ensures Read(NegativeBytes(i) + tail) == Success(NegInt(i), tail)
  {
    Powers();
    if -0x20 <= i {
      ReadSingle(0x100 + i, tail);
    } else {
      var k := if -0x80 <= i then 1 else if -0x8000 <= i then 2 else if -0x8000_0000 <= i then 4 else 8;
      var first := if -0x80 <= i then 0xd0 else if -0x8000 <= i then 0xd1 else if -0x8000_0000 <= i then 0xd2 else 0xd3;
      assert NegativeBytes(i) == [first] + ToBytes(Power256(k) + i, k);
      ReadSigned(first, i, k, tail);
    }
  }

  // Reading back what was written gives the object and leaves every following byte.
  lemma {:induction false} ReadEncoded(o: Object, tail: Bytes)
    requires Packable(o)
    ensures Read(Encode(o) + tail) == Success(o, tail)
    decreases o, 0
  {
    match o {
      case Nil => ReadSingle(0xc0, tail);
      case Boolean(flag) => ReadSingle(if flag then 0xc3 else 0xc2, tail);
      case PosInt(n) => ReadUnsigned(n, tail);
      case NegInt(i) => ReadNegative(i, tail);
      case Str(s) => ReadStr(s, tail);
      case Array(items) =>
        ReadEncodedMany(items, tail);
        ReadArray(items, EncodeMany(items) + tail, tail);
        ConcatAssociates(ArrayHeader(|items|), EncodeMany(items), tail);
      case Map(entries) =>
        ReadEncodedEntries(entries, tail);
        ReadMap(|entries|, Flatten(entries), EncodeEntries(entries) + tail, tail);
        ConcatAssociates(MapHeader(|entries|), EncodeEntries(entries), tail);
    }
  }

  // One more object in front of a sequence of objects.
  lemma {:induction false} ReadManyCons(o: Object, front: Bytes, others: seq<Object>, back: Bytes, tail: Bytes)
    requires Read(front + back) == Success(o, back) && ReadMany(|others|, back) == Success(others, tail)
    ensures ReadMany(|[o] + others|, front + back) == Success([o] + others, tail)
  {
  }

  lemma {:induction false} ReadEncodedMany(items: seq<Object>, tail: Bytes)
    requires forall i :: 0 <= i < |items| ==> Packable(items[i])
    ensures ReadMany(|items|, EncodeMany(items) + tail) == Success(items, tail)
    decreases items, 0
  {
    if items == [] {
      assert EncodeMany(items) + tail == tail;
    } else {
      var others := EncodeMany(items[1..]) + tail;
      assert EncodeMany(items) + tail == Encode(items[0]) + others;
      ReadEncoded(items[0], others);
      ReadEncodedMany(items[1..], tail);
      ReadManyCons(items[0], Encode(items[0]), items[1..], others, tail);
      assert [items[0]] + items[1..] == items;
    }
  }

  function Flatten(entries: seq<Entry>): (items: seq<Object>)
    ensures |items| == 2 * |entries|
    ensures forall i :: 0 <= i < |entries| ==> items[2 * i] == entries[i].key && items[2 * i + 1] == entries[i].val
  {
    if entries == [] then []
    else
      var items := Flatten(entries[..|entries| - 1]);
      items + [entries[|entries| - 1].key, entries[|entries| - 1].val]
  }

  lemma {:induction false} PairsOfFlatten(entries: seq<Entry>)
    ensures Pairs(Flatten(entries)) == entries
  {
  }

  lemma {:induction false} FlattenFront(entries: seq<Entry>)
    requires entries != []
    ensures Flatten(entries) == [entries[0].key, entries[0].val] + Flatten(entries[1..])
  {
    var left, right := Flatten(entries), [entries[0].key, entries[0].val] + Flatten(entries[1..]);
    forall i | 0 <= i < |left| ensures left[i] == right[i] {
      if i >= 2 {
        assert entries[i / 2] == entries[1..][i / 2 - 1];
        assert i == 2 * (i / 2) || i == 2 * (i / 2) + 1;
      }
    }
  }

  lemma {:induction false} ReadEncodedEntry(e: Entry, tail: Bytes, others: seq<Object>, rest: Bytes)
    requires Packable(e.key) && Packable(e.val)
    requires ReadMany(|others|, tail) == Success(others, rest)
    ensures ReadMany(|[e.key, e.val] + others|, EncodeEntry(e) + tail) == Success([e.key, e.val] + others, rest)
    decreases e, 0
  {
    ReadEncoded(e.val, tail);
    ReadManyCons(e.val, Encode(e.val), others, tail, rest);
    ReadEncoded(e.key, Encode(e.val) + tail);
    ReadManyCons(e.key, Encode(e.key), [e.val] + others, Encode(e.val) + tail, rest);
    TwoInFront(e.key, e.val, others);
    ConcatAssociates(Encode(e.key), Encode(e.val), tail);
  }

  lemma {:induction false} ReadEncodedEntries(entries: seq<Entry>, tail: Bytes)
    requires forall i :: 0 <= i < |entries| ==> Packable(entries[i].key) && Packable(entries[i].val)
    ensures ReadMany(2 * |entries|, EncodeEntries(entries) + tail) == Success(Flatten(entries), tail)
    ensures Pairs(Flatten(entries)) == entries
    decreases entries, 0
  {
    PairsOfFlatten(entries);
    if entries == [] {
      assert EncodeEntries(entries) + tail == tail;
    } else {
      var others := EncodeEntries(entries[1..]) + tail;
      assert EncodeEntries(entries) + tail == EncodeEntry(entries[0]) + others;
      ReadEncodedEntries(entries[1..], tail);
      ReadEncodedEntry(entries[0], others, Flatten(entries[1..]), tail);
      FlattenFront(entries);
    }
  }
}
