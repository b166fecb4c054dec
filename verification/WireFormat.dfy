/**
 * The bytes on the wire, in numerals: what each format byte of the MessagePack specification
 * ("Formats") stands for, which number formats the packers choose, and every byte of the three
 * packed messages. Nothing here rests on the text of a key or on a format chosen elsewhere.
 */
module WireFormat {
  import opened Base
  import opened MsgPack
  import opened Protocol
  import opened ProtocolTheorems

  // ---------------------------------------------------------------- what format bytes stand for

  // Two and four bytes as a number, the most significant first.
  function Word(a: Byte, b: Byte): nat {
    0x100 * a + b
  }

  function Long(a: Byte, b: Byte, c: Byte, d: Byte): nat {
    0x100_0000 * a + 0x1_0000 * b + 0x100 * c + d
  }

  lemma BigEndianDigits(a: Byte, b: Byte, c: Byte, d: Byte)
    ensures BigEndian([]) == 0 && BigEndian([a]) == a && BigEndian([a, b]) == Word(a, b)
    ensures BigEndian([a, b, c, d]) == Long(a, b, c, d)
  {
    assert [a][..0] == [] && [a, b][..1] == [a] && [a, b, c][..2] == [a, b] && [a, b, c, d][..3] == [a, b, c];
    assert BigEndian([a]) == a;
    assert BigEndian([a, b]) == Word(a, b);
    assert BigEndian([a, b, c]) == 0x100 * Word(a, b) + c;
  }

  lemma {:induction false} BigEndianEight(h: Bytes, l: Bytes)
    requires |h| == 4 && |l| == 4
    ensures BigEndian(h + l) == LIMIT_32 * Long(h[0], h[1], h[2], h[3]) + Long(l[0], l[1], l[2], l[3])
  {
    var b := h + l;
    BigEndianDigits(h[0], h[1], h[2], h[3]);
    assert b[..4] == [h[0], h[1], h[2], h[3]];
    assert b[..5][..4] == b[..4] && b[..6][..5] == b[..5] && b[..7][..6] == b[..6] && b[..8][..7] == b[..7] && b[..8] == b;
    assert BigEndian(b[..5]) == 0x100 * BigEndian(b[..4]) + l[0];
    assert BigEndian(b[..6]) == 0x100 * BigEndian(b[..5]) + l[1];
    assert BigEndian(b[..7]) == 0x100 * BigEndian(b[..6]) + l[2];
  }

  // A format byte, the length it asks for, and the body.
  lemma {:induction false} ReadLeaf(first: Byte, length: Bytes, body: Bytes, tail: Bytes)
    requires FormatOf(first).Format? && FormatOf(first).shape == LeafShape
    requires |length| == FormatOf(first).lenBytes && |body| == FormatOf(first).base + BigEndian(length)
    ensures Read([first] + length + body + tail) == Success(LeafObject(first, body), tail)
  {
    ReadHeader([first] + length, body + tail);
    assert [first] + length + body + tail == [first] + length + (body + tail);
    assert ([first] + length)[1..] == length;
    assert (body + tail)[..|body|] == body && (body + tail)[|body|..] == tail;
  }

  lemma NoLength(first: Byte, body: Bytes, tail: Bytes)
    ensures [first] + [] + body + tail == [first] + body + tail && BigEndian([]) == 0
  {
    assert [first] + [] == [first];
  }

  // A format byte and a body of the size it fixes.
  lemma {:induction false} ReadLeafByte(first: Byte, body: Bytes, tail: Bytes)
    requires FormatOf(first).Format? && FormatOf(first).shape == LeafShape
    requires FormatOf(first).lenBytes == 0 && FormatOf(first).base == |body|
    ensures Read([first] + body + tail) == Success(LeafObject(first, body), tail)
  {
    NoLength(first, body, tail);
    ReadLeaf(first, [], body, tail);
  }

  lemma {:induction false} FixedNumbers(n: Byte, tail: Bytes)
    ensures n <= 0x7f ==> Read([n] + tail) == Success(PosInt(n), tail)
    ensures 0xe0 <= n ==> Read([n] + tail) == Success(NegInt(n - 0x100), tail)
  {
    if n <= 0x7f || 0xe0 <= n { ReadSingle(n, tail); }
  }

  lemma {:induction false} FixedValues(tail: Bytes)
    ensures Read([0xc0] + tail) == Success(Nil, tail)
    ensures Read([0xc1] + tail) == ParseError
    ensures Read([0xc2] + tail) == Success(Boolean(false), tail)
    ensures Read([0xc3] + tail) == Success(Boolean(true), tail)
  {
    ReadSingle(0xc0, tail);
    ReadSingle(0xc2, tail);
    ReadSingle(0xc3, tail);
  }

  // uint 8 to 64: 0xcc to 0xcf.
  lemma {:induction false} UnsignedFormats(a: Byte, b: Byte, c: Byte, d: Byte, tail: Bytes)
    ensures Read([0xcc] + [a] + tail) == Success(PosInt(a), tail)
    ensures Read([0xcd] + [a, b] + tail) == Success(PosInt(Word(a, b)), tail)
    ensures Read([0xce] + [a, b, c, d] + tail) == Success(PosInt(Long(a, b, c, d)), tail)
  {
    BigEndianDigits(a, b, c, d);
    ReadLeafByte(0xcc, [a], tail);
    ReadLeafByte(0xcd, [a, b], tail);
    ReadLeafByte(0xce, [a, b, c, d], tail);
  }

  lemma {:induction false} UnsignedLongFormat(h: Bytes, l: Bytes, tail: Bytes)
    requires |h| == 4 && |l| == 4
    ensures Read([0xcf] + (h + l) + tail)
         == Success(PosInt(LIMIT_32 * Long(h[0], h[1], h[2], h[3]) + Long(l[0], l[1], l[2], l[3])), tail)
  {
    BigEndianEight(h, l);
    ReadLeafByte(0xcf, h + l, tail);
  }

  // An integer as the unpackers see it: positive or negative.
  function Integer(i: int): Object {
    if i < 0 then NegInt(i) else PosInt(i)
  }

  // Two's complement.
  function FromUnsigned(n: nat, limit: nat): int {
    if n < limit / 2 then n else n - limit
  }

  lemma {:induction false} SignedIsTwosComplement(n: nat, k: nat)
    requires (k == 1 || k == 2 || k == 4 || k == 8) && n < Power256(k)
    ensures Signed(n, Power256(k))
         == Integer(FromUnsigned(n, if k == 1 then 0x100 else if k == 2 then 0x1_0000 else if k == 4 then 0x1_0000_0000 else 0x1_0000_0000_0000_0000))
  {
    Powers();
  }

  // int 8 to 64: 0xd0 to 0xd3.
  lemma {:induction false} SignedFormats(a: Byte, b: Byte, c: Byte, d: Byte, tail: Bytes)
    ensures Read([0xd0] + [a] + tail) == Success(Integer(FromUnsigned(a, 0x100)), tail)
    ensures Read([0xd1] + [a, b] + tail) == Success(Integer(FromUnsigned(Word(a, b), 0x1_0000)), tail)
    ensures Read([0xd2] + [a, b, c, d] + tail) == Success(Integer(FromUnsigned(Long(a, b, c, d), 0x1_0000_0000)), tail)
  {
    Powers();
    BigEndianDigits(a, b, c, d);
    SignedIsTwosComplement(a, 1);
    SignedIsTwosComplement(Word(a, b), 2);
    SignedIsTwosComplement(Long(a, b, c, d), 4);
    ReadLeafByte(0xd0, [a], tail);
    ReadLeafByte(0xd1, [a, b], tail);
    ReadLeafByte(0xd2, [a, b, c, d], tail);
  }

  lemma {:induction false} SignedLongFormat(h: Bytes, l: Bytes, tail: Bytes)
    requires |h| == 4 && |l| == 4
    ensures Read([0xd3] + (h + l) + tail)
         == Success(Integer(FromUnsigned(LIMIT_32 * Long(h[0], h[1], h[2], h[3]) + Long(l[0], l[1], l[2], l[3]), 0x1_0000_0000_0000_0000)), tail)
  {
    Powers();
    BigEndianEight(h, l);
    BigEndianBound(h + l);
    SignedIsTwosComplement(BigEndian(h + l), 8);
    ReadLeafByte(0xd3, h + l, tail);
  }

  lemma {:induction false} StringFormats(a: Byte, b: Byte, c: Byte, d: Byte, s: Bytes, tail: Bytes)
    ensures |s| < 0x20 ==> Read([0xa0 + |s|] + s + tail) == Success(Str(s), tail)
    ensures |s| == a ==> Read([0xd9] + [a] + s + tail) == Success(Str(s), tail)
    ensures |s| == Word(a, b) ==> Read([0xda] + [a, b] + s + tail) == Success(Str(s), tail)
    ensures |s| == Long(a, b, c, d) ==> Read([0xdb] + [a, b, c, d] + s + tail) == Success(Str(s), tail)
  {
    BigEndianDigits(a, b, c, d);
    if |s| < 0x20 { ReadLeafByte(0xa0 + |s|, s, tail); }
    if |s| == a { ReadLeaf(0xd9, [a], s, tail); }
    if |s| == Word(a, b) { ReadLeaf(0xda, [a, b], s, tail); }
    if |s| == Long(a, b, c, d) { ReadLeaf(0xdb, [a, b, c, d], s, tail); }
  }

  // bin 8 to 32 and ext 8 to 32, whose length does not count the type byte.
  lemma {:induction false} BinaryFormats(a: Byte, b: Byte, c: Byte, d: Byte, s: Bytes, tail: Bytes)
    ensures |s| == a ==> Read([0xc4] + [a] + s + tail) == Success(Bin(s), tail)
    ensures |s| == Word(a, b) ==> Read([0xc5] + [a, b] + s + tail) == Success(Bin(s), tail)
    ensures |s| == Long(a, b, c, d) ==> Read([0xc6] + [a, b, c, d] + s + tail) == Success(Bin(s), tail)
    ensures |s| == 1 + a ==> Read([0xc7] + [a] + s + tail) == Success(Ext(s), tail)
    ensures |s| == 1 + Word(a, b) ==> Read([0xc8] + [a, b] + s + tail) == Success(Ext(s), tail)
    ensures |s| == 1 + Long(a, b, c, d) ==> Read([0xc9] + [a, b, c, d] + s + tail) == Success(Ext(s), tail)
  {
    BigEndianDigits(a, b, c, d);
    if |s| == a { ReadLeaf(0xc4, [a], s, tail); }
    if |s| == Word(a, b) { ReadLeaf(0xc5, [a, b], s, tail); }
    if |s| == Long(a, b, c, d) { ReadLeaf(0xc6, [a, b, c, d], s, tail); }
    if |s| == 1 + a { ReadLeaf(0xc7, [a], s, tail); }
    if |s| == 1 + Word(a, b) { ReadLeaf(0xc8, [a, b], s, tail); }
    if |s| == 1 + Long(a, b, c, d) { ReadLeaf(0xc9, [a, b, c, d], s, tail); }
  }

  // float 32 and 64, and ext of 1, 2, 4, 8 and 16 bytes behind the type byte.
  lemma {:induction false} FixedSizeFormats(s: Bytes, tail: Bytes)
    ensures |s| == 4 ==> Read([0xca] + s + tail) == Success(Float(s), tail)
    ensures |s| == 8 ==> Read([0xcb] + s + tail) == Success(Float(s), tail)
    ensures |s| == 1 + 1 ==> Read([0xd4] + s + tail) == Success(Ext(s), tail)
    ensures |s| == 1 + 2 ==> Read([0xd5] + s + tail) == Success(Ext(s), tail)
    ensures |s| == 1 + 4 ==> Read([0xd6] + s + tail) == Success(Ext(s), tail)
    ensures |s| == 1 + 8 ==> Read([0xd7] + s + tail) == Success(Ext(s), tail)
    ensures |s| == 1 + 16 ==> Read([0xd8] + s + tail) == Success(Ext(s), tail)
  {
    if |s| == 4 { ReadLeafByte(0xca, s, tail); }
    if |s| == 8 { ReadLeafByte(0xcb, s, tail); }
    if |s| == 2 { ReadLeafByte(0xd4, s, tail); }
    if |s| == 3 { ReadLeafByte(0xd5, s, tail); }
    if |s| == 5 { ReadLeafByte(0xd6, s, tail); }
    if |s| == 9 { ReadLeafByte(0xd7, s, tail); }
    if |s| == 17 { ReadLeafByte(0xd8, s, tail); }
  }

  // Behind the header stand so many objects and nothing but them.
  ghost predicate ReadsArray(header: Bytes, items: seq<Object>, body: Bytes, tail: Bytes) {
    ReadMany(|items|, body) == Success(items, tail) ==> Read(header + body) == Success(Array(items), tail)
  }

  // Keys and values take turns, keys first.
  ghost predicate ReadsMap(header: Bytes, items: seq<Object>, entries: seq<Entry>, body: Bytes, tail: Bytes) {
    && |items| == 2 * |entries|
    && (forall i :: 0 <= i < |entries| ==> entries[i] == Entry(items[2 * i], items[2 * i + 1]))
    && ReadMany(|items|, body) == Success(items, tail)
    ==> Read(header + body) == Success(Map(entries), tail)
  }

  lemma {:induction false} ReadsItems(first: Byte, length: Bytes, items: seq<Object>, entries: seq<Entry>, body: Bytes, tail: Bytes)
    requires FormatOf(first).Format? && |length| == FormatOf(first).lenBytes
    ensures FormatOf(first).shape == ArrayShape && |items| == FormatOf(first).base + BigEndian(length) ==>
              ReadsArray([first] + length, items, body, tail)
    ensures FormatOf(first).shape == MapShape && |entries| == FormatOf(first).base + BigEndian(length) ==>
              ReadsMap([first] + length, items, entries, body, tail)
  {
    ReadHeader([first] + length, body);
    assert ([first] + length)[1..] == length;
    if |items| == 2 * |entries| && forall i :: 0 <= i < |entries| ==> entries[i] == Entry(items[2 * i], items[2 * i + 1]) {
      assert Pairs(items) == entries;
    }
  }

  lemma CollectionFormats(a: Byte, b: Byte, c: Byte, d: Byte, items: seq<Object>, entries: seq<Entry>, body: Bytes, tail: Bytes)
    ensures |entries| < 0x10 ==> ReadsMap([0x80 + |entries|] + [], items, entries, body, tail)
    ensures |items| < 0x10 ==> ReadsArray([0x90 + |items|] + [], items, body, tail)
    ensures |items| == Word(a, b) ==> ReadsArray([0xdc] + [a, b], items, body, tail)
    ensures |items| == Long(a, b, c, d) ==> ReadsArray([0xdd] + [a, b, c, d], items, body, tail)
    ensures |entries| == Word(a, b) ==> ReadsMap([0xde] + [a, b], items, entries, body, tail)
    ensures |entries| == Long(a, b, c, d) ==> ReadsMap([0xdf] + [a, b, c, d], items, entries, body, tail)
  {
    BigEndianDigits(a, b, c, d);
    if |entries| < 0x10 { ReadsItems(0x80 + |entries|, [], items, entries, body, tail); }
    if |items| < 0x10 { ReadsItems(0x90 + |items|, [], items, entries, body, tail); }
    ReadsItems(0xdc, [a, b], items, entries, body, tail);
    ReadsItems(0xdd, [a, b, c, d], items, entries, body, tail);
    ReadsItems(0xde, [a, b], items, entries, body, tail);
    ReadsItems(0xdf, [a, b, c, d], items, entries, body, tail);
  }

  // ---------------------------------------------------------------- what the packers write

  // The bytes of a 32-bit number: unsigned formats from 0 on, signed formats below.
  function Number(i: int): Bytes
    requires -0x8000_0000 <= i < 0x1_0000_0000
  {
    if i < -0x8000 then var n := 0x1_0000_0000 + i; [0xd2, n / 0x100_0000, n / 0x1_0000 % 0x100, n / 0x100 % 0x100, n % 0x100]
    else if i < -0x80 then var n := 0x1_0000 + i; [0xd1, n / 0x100, n % 0x100]
    else if i < -0x20 then [0xd0, 0x100 + i]
    else if i < 0 then [0x100 + i]
    else if i < 0x80 then [i]
    else if i < 0x100 then [0xcc, i]
    else if i < 0x1_0000 then [0xcd, i / 0x100, i % 0x100]
    else [0xce, i / 0x100_0000, i / 0x1_0000 % 0x100, i / 0x100 % 0x100, i % 0x100]
  }

  lemma DivideTwice(n: nat)
    ensures n / 0x100 / 0x100 == n / 0x1_0000 && n / 0x1_0000 / 0x100 == n / 0x100_0000
  {
  }

  lemma {:induction false} TwoDigits(n: nat)
    requires n < 0x1_0000
    ensures ToBytes(n, 2) == [n / 0x100, n % 0x100]
  {
    LastDigit(n, 2);
    LastDigit(n / 0x100, 1);
  }

  lemma {:induction false} FourDigits(n: nat)
    requires n < 0x1_0000_0000
    ensures ToBytes(n, 4) == [n / 0x100_0000, n / 0x1_0000 % 0x100, n / 0x100 % 0x100, n % 0x100]
  {
    DivideTwice(n);
    LastDigit(n, 4);
    LastDigit(n / 0x100, 3);
    LastDigit(n / 0x1_0000, 2);
    LastDigit(n / 0x100_0000, 1);
  }

  lemma LastDigit(n: nat, k: nat)
    requires k > 0
    ensures ToBytes(n, k) == ToBytes(n / 0x100, k - 1) + [n % 0x100]
  {
  }

  lemma NumberIsEncoded(i: int)
    requires -0x8000_0000 <= i < 0x1_0000_0000
    ensures Packable(IntObject(i)) && Encode(IntObject(i)) == Number(i)
  {
    if i >= 0x1_0000 {
      FourDigits(i);
    } else if i >= 0x100 {
      TwoDigits(i);
    } else if i >= 0 {
      LastDigit(i, 1);
    } else if i < -0x8000 {
      FourDigits(0x1_0000_0000 + i);
    } else if i < -0x80 {
      TwoDigits(0x1_0000 + i);
    } else {
      LastDigit(0x100 + i, 1);
    }
  }

  function Bool(flag: bool): Bytes {
    if flag then [0xc3] else [0xc2]
  }

  // One after the other.
  function Cat(parts: seq<Bytes>): Bytes {
    if parts == [] then [] else parts[0] + Cat(parts[1..])
  }

  // { "id": .., "is_master": .. }
  function UserInfoBytes(u: UserInfo): Bytes {
    [0x82] + Cat([[0xa2, 0x69, 0x64] + Number(u.id),
                  [0xa9, 0x69, 0x73, 0x5f, 0x6d, 0x61, 0x73, 0x74, 0x65, 0x72] + Bool(u.isMaster)])
  }

  // { "id": .., "x": .., "y": .. }
  function PlayerInputBytes(p: PlayerInput): Bytes {
    [0x83] + Cat([[0xa2, 0x69, 0x64] + Number(p.id),
                  [0xa1, 0x78] + Number(p.x),
                  [0xa1, 0x79] + Number(p.y)])
  }

  // { "is_exists": .., "x": .., "y": .. }
  function PosBytes(p: PlayerPos): Bytes {
    [0x83] + Cat([[0xa9, 0x69, 0x73, 0x5f, 0x65, 0x78, 0x69, 0x73, 0x74, 0x73] + Bool(p.isExists),
                  [0xa1, 0x78] + Number(p.x),
                  [0xa1, 0x79] + Number(p.y)])
  }

  // A header and "pos_" with a digit.
  function PositionKey(n: nat): Bytes
    requires n < 10
  {
    [0xa5, 0x70, 0x6f, 0x73, 0x5f, 0x30 + n]
  }

  // { "tick": .., "pos_1": .., "pos_2": .., "pos_3": .., "pos_4": .. }
  function GameStateBytes(g: GameState): Bytes {
    [0x85] + Cat(StateFields(g))
  }

  function StateFields(g: GameState): seq<Bytes> {
    [[0xa4, 0x74, 0x69, 0x63, 0x6b] + Number(g.tick),
     PositionKey(1) + PosBytes(g.pos1),
     PositionKey(2) + PosBytes(g.pos2),
     PositionKey(3) + PosBytes(g.pos3),
     PositionKey(4) + PosBytes(g.pos4)]
  }

  lemma KeysInNumerals()
    ensures ID_KEY == [0x69, 0x64]
    ensures IS_MASTER_KEY == [0x69, 0x73, 0x5f, 0x6d, 0x61, 0x73, 0x74, 0x65, 0x72]
    ensures IS_EXISTS_KEY == [0x69, 0x73, 0x5f, 0x65, 0x78, 0x69, 0x73, 0x74, 0x73]
    ensures X_KEY == [0x78] && Y_KEY == [0x79] && TICK_KEY == [0x74, 0x69, 0x63, 0x6b]
  {
  }

  // The key of position n, for one digit.
  lemma PosKeyInNumerals(n: nat)
    requires n < 10
    ensures PosKey(n) == [0x70, 0x6f, 0x73, 0x5f, 0x30 + n]
  {
    assert Decimal(n) == ['0' + n as char];
    assert Ascii("pos_") == [0x70, 0x6f, 0x73, 0x5f];
  }

  // The number a row of digits stands for.
  function ValueOf(s: string): int {
    if s == "" then 0 else 10 * ValueOf(s[..|s| - 1]) + (s[|s| - 1] as int - '0' as int)
  }

  lemma {:induction false} ValueOfSnoc(s: string, c: char)
    ensures ValueOf(s + [c]) == 10 * ValueOf(s) + (c as int - '0' as int)
  {
    assert (s + [c])[..|s + [c]| - 1] == s;
  }

  lemma DigitValue(d: nat)
    requires d < 10
    ensures ('0' + d as char) as int - '0' as int == d && (d > 0 ==> '0' + d as char != '0')
  {
  }

  lemma {:induction false} DecimalSplits(n: nat)
    ensures Decimal(n) == (if n < 10 then "" else Decimal(n / 10)) + ['0' + (n % 10) as char]
    ensures n % 10 < 10 && n == 10 * (n / 10) + n % 10
  {
  }

  // Decimal digits without leading zeros.
  lemma {:induction false} DecimalReadsBack(n: nat)
    ensures ValueOf(Decimal(n)) == n
    ensures n > 0 ==> Decimal(n)[0] != '0'
  {
    var q, d := n / 10, n % 10;
    DecimalSplits(n);
    DigitValue(d);
    if n < 10 {
      ValueOfSnoc("", '0' + d as char);
      assert Decimal(n) == "" + ['0' + d as char];
    } else {
      DecimalReadsBack(q);
      ValueOfSnoc(Decimal(q), '0' + d as char);
      assert Decimal(n)[0] == Decimal(q)[0];
    }
  }

  // The key of a position is "pos_" and the number, whatever the number.
  lemma {:induction false} PosKeyIsDecimal(n: nat)
    ensures PosKey(n) == [0x70, 0x6f, 0x73, 0x5f] + Ascii(Decimal(n))
    ensures ValueOf(Decimal(n)) == n && (n > 0 ==> Decimal(n)[0] != '0')
  {
    DecimalReadsBack(n);
    assert Ascii("pos_") == [0x70, 0x6f, 0x73, 0x5f];
  }

  // An entry with a key of known bytes.
  lemma {:induction false} EntryBytes(key: Bytes, numerals: Bytes, val: Object)
    requires |key| < 0x20 && Packable(val) && numerals == [0xa0 + |key|] + key
    ensures EncodeEntry(Entry(Str(key), val)) == numerals + Encode(val)
  {
  }

  lemma {:induction false} EntriesCat(es: seq<Entry>, parts: seq<Bytes>)
    requires |parts| == |es| && forall i :: 0 <= i < |es| ==> Packable(es[i].key) && Packable(es[i].val)
    requires forall i :: 0 <= i < |es| ==> EncodeEntry(es[i]) == parts[i]
    ensures EncodeEntries(es) == Cat(parts)
  {
    if es != [] {
      EntriesCat(es[1..], parts[1..]);
    }
  }

  lemma PackedUserInfo(u: UserInfo)
    ensures PackUserInfo(u) == UserInfoBytes(u)
  {
    KeysInNumerals();
    NumberIsEncoded(u.id);
    EntryBytes(ID_KEY, [0xa2, 0x69, 0x64], PosInt(u.id));
    EntryBytes(IS_MASTER_KEY, [0xa9, 0x69, 0x73, 0x5f, 0x6d, 0x61, 0x73, 0x74, 0x65, 0x72], Boolean(u.isMaster));
    EntriesCat(UserInfoEntries(u), [[0xa2, 0x69, 0x64] + Number(u.id),
                                    [0xa9, 0x69, 0x73, 0x5f, 0x6d, 0x61, 0x73, 0x74, 0x65, 0x72] + Bool(u.isMaster)]);
  }

  lemma CoordinateBytes(x: Int32)
    ensures Packable(IntObject(x)) && EncodeEntry(Entry(Str(X_KEY), IntObject(x))) == [0xa1, 0x78] + Number(x)
    ensures EncodeEntry(Entry(Str(Y_KEY), IntObject(x))) == [0xa1, 0x79] + Number(x)
  {
    KeysInNumerals();
    NumberIsEncoded(x);
    EntryBytes(X_KEY, [0xa1, 0x78], IntObject(x));
    EntryBytes(Y_KEY, [0xa1, 0x79], IntObject(x));
  }

  lemma PackedPlayerInput(p: PlayerInput)
    ensures PackPlayerInput(p) == PlayerInputBytes(p)
  {
    KeysInNumerals();
    NumberIsEncoded(p.id);
    EntryBytes(ID_KEY, [0xa2, 0x69, 0x64], PosInt(p.id));
    CoordinateBytes(p.x);
    CoordinateBytes(p.y);
    EntriesCat(InputEntries(p), [[0xa2, 0x69, 0x64] + Number(p.id), [0xa1, 0x78] + Number(p.x), [0xa1, 0x79] + Number(p.y)]);
  }

  lemma PackedPos(p: PlayerPos)
    ensures Packable(Map(PosEntries(p))) && Encode(Map(PosEntries(p))) == PosBytes(p)
  {
    KeysInNumerals();
    EntryBytes(IS_EXISTS_KEY, [0xa9, 0x69, 0x73, 0x5f, 0x65, 0x78, 0x69, 0x73, 0x74, 0x73], Boolean(p.isExists));
    CoordinateBytes(p.x);
    CoordinateBytes(p.y);
    EntriesCat(PosEntries(p), [[0xa9, 0x69, 0x73, 0x5f, 0x65, 0x78, 0x69, 0x73, 0x74, 0x73] + Bool(p.isExists),
                               [0xa1, 0x78] + Number(p.x), [0xa1, 0x79] + Number(p.y)]);
  }

  lemma PackedPosition(n: nat, p: PlayerPos)
    requires n < 10
    ensures Packable(PositionEntry(n, p).key) && Packable(PositionEntry(n, p).val)
    ensures EncodeEntry(PositionEntry(n, p)) == PositionKey(n) + PosBytes(p)
  {
    PosKeyInNumerals(n);
    PackedPos(p);
    EntryBytes(PosKey(n), PositionKey(n), Map(PosEntries(p)));
  }

  lemma PackedTick(tick: UInt32)
    ensures Packable(PosInt(tick)) && EncodeEntry(Entry(Str(TICK_KEY), PosInt(tick))) == [0xa4, 0x74, 0x69, 0x63, 0x6b] + Number(tick)
  {
    KeysInNumerals();
    NumberIsEncoded(tick);
    EntryBytes(TICK_KEY, [0xa4, 0x74, 0x69, 0x63, 0x6b], PosInt(tick));
  }

  lemma PackedField(g: GameState, i: nat)
    requires i < 5
    ensures Packable(StateEntries(g)[i].key) && Packable(StateEntries(g)[i].val)
    ensures EncodeEntry(StateEntries(g)[i]) == StateFields(g)[i]
  {
    if i == 0 {
      PackedTick(g.tick);
    } else {
      PackedPosition(i, Position(g, i));
      assert StateEntries(g)[i] == PositionEntry(i, Position(g, i));
      assert StateFields(g)[i] == PositionKey(i) + PosBytes(Position(g, i));
    }
  }

  lemma PackedGameState(g: GameState)
    ensures PackGameState(g) == GameStateBytes(g)
  {
    var es, fields := StateEntries(g), StateFields(g);
    forall i | 0 <= i < 5 ensures Packable(es[i].key) && Packable(es[i].val) && EncodeEntry(es[i]) == fields[i] {
      PackedField(g, i);
    }
    EntriesCat(es, fields);
  }

  // Every packed message in numerals.
  lemma PackedBytes(u: UserInfo, p: PlayerInput, g: GameState)
    ensures PackUserInfo(u) == UserInfoBytes(u)
    ensures PackPlayerInput(p) == PlayerInputBytes(p)
    ensures PackGameState(g) == GameStateBytes(g)
  {
    PackedUserInfo(u);
    PackedPlayerInput(p);
    PackedGameState(g);
  }

  // Those bytes, with anything behind them, are accepted and mean what they say.
  lemma BytesAreAccepted(u: UserInfo, p: PlayerInput, g: GameState, tail: Bytes)
    ensures UnpackUserInfo(UserInfoBytes(u) + tail) == Some(u)
    ensures UnpackPlayerInput(PlayerInputBytes(p) + tail) == Some(p)
    ensures UnpackGameState(GameStateBytes(g) + tail) == Some(g)
  {
    PackedBytes(u, p, g);
    UserInfoRoundTrip(u, tail);
    PlayerInputRoundTrip(p, tail);
    GameStateRoundTrip(g, tail);
  }

  lemma CatTwo(a: Bytes, b: Bytes)
    ensures Cat([a, b]) == a + b
  {
    assert [a, b][1..] == [b] && [b][1..] == [];
    assert Cat([b]) == b + [];
  }

  lemma CatThree(a: Bytes, b: Bytes, c: Bytes)
    ensures Cat([a, b, c]) == a + (b + c)
  {
    assert [a, b, c][1..] == [b, c];
    CatTwo(b, c);
  }

  // The first client's answer, and the input y-1 of slave 1.
  lemma ExampleAnswer()
    ensures PackUserInfo(UserInfo(0, true))
         == [0x82, 0xa2, 0x69, 0x64, 0x00, 0xa9, 0x69, 0x73, 0x5f, 0x6d, 0x61, 0x73, 0x74, 0x65, 0x72, 0xc3]
  {
    PackedUserInfo(UserInfo(0, true));
    var id, role := [0xa2, 0x69, 0x64, 0x00], [0xa9, 0x69, 0x73, 0x5f, 0x6d, 0x61, 0x73, 0x74, 0x65, 0x72, 0xc3];
    CatTwo(id, role);
    assert id == [0xa2, 0x69, 0x64] + [0x00];
    assert role == [0xa9, 0x69, 0x73, 0x5f, 0x6d, 0x61, 0x73, 0x74, 0x65, 0x72] + [0xc3];
  }

  lemma ExampleInput()
    ensures PackPlayerInput(PlayerInput(1, 0, -1)) == [0x83, 0xa2, 0x69, 0x64, 0x01, 0xa1, 0x78, 0x00, 0xa1, 0x79, 0xff]
  {
    PackedPlayerInput(PlayerInput(1, 0, -1));
    CatThree([0xa2, 0x69, 0x64] + [0x01], [0xa1, 0x78] + [0x00], [0xa1, 0x79] + [0xff]);
  }

  // ---------------------------------------------------------------- the frame

  // The type byte: 1 asks for user information, 2 answers, 3 is a game state, 4 an input, 5 the
  // news of a slave; anything else is refused.
  lemma TypeBytes(code: Byte, payload: Bytes)
    ensures ParseMessage([]) == None
    ensures ParseMessage([code] + payload)
         == if code == 1 then Some(Message(ReqUserInfo, payload))
            else if code == 2 then Some(Message(ResUserInfo, payload))
            else if code == 3 then Some(Message(GameStateUpd, payload))
            else if code == 4 then Some(Message(PlayerInputMsg, payload))
            else if code == 5 then Some(Message(SlaveConnected, payload))
            else None
  {
    assert ([code] + payload)[1..] == payload;
  }
}
