/**
 * The writer picks the smallest format: no byte string the reader accepts for an object is
 * shorter than the object's encoding, at any nesting depth.
 */
module MsgPackMinimal {
  import opened Base
  import opened MsgPack

  // The length of a body fits the length bytes that announce it.
  lemma {:induction false} LengthFits(b: Bytes)
    ensures |b| == 0 ==> BigEndian(b) == 0
    ensures |b| == 1 ==> BigEndian(b) < 0x100
    ensures |b| == 2 ==> BigEndian(b) < 0x1_0000
    ensures |b| == 4 ==> BigEndian(b) < LIMIT_32
    ensures |b| == 8 ==> BigEndian(b) < LIMIT_64
  {
    Powers();
    BigEndianBound(b);
  }

  lemma NumberIsSmallest(first: Byte, body: Bytes)
    requires 0xcc <= first <= 0xd3 && |body| == FormatOf(first).base && Packable(LeafObject(first, body))
    ensures |Encode(LeafObject(first, body))| <= 1 + |body|
  {
    Powers();
    LengthFits(body);
  }

  lemma {:induction false} StrIsSmallest(first: Byte, length: Bytes, body: Bytes)
    requires 0xa0 <= first <= 0xbf || 0xd9 <= first <= 0xdb
    requires |length| == FormatOf(first).lenBytes && |body| == FormatOf(first).base + BigEndian(length) && |body| < LIMIT_32
    ensures |Encode(Str(body))| <= 1 + |length| + |body|
  {
    LengthFits(length);
  }

  lemma {:induction false} LeafIsSmallest(first: Byte, length: Bytes, body: Bytes)
    requires FormatOf(first).Format? && FormatOf(first).shape == LeafShape
    requires |length| == FormatOf(first).lenBytes && |body| == FormatOf(first).base + BigEndian(length)
    requires Packable(LeafObject(first, body))
    ensures |Encode(LeafObject(first, body))| <= 1 + |length| + |body|
  {
    if 0xcc <= first <= 0xd3 {
      LengthFits(length);
      NumberIsSmallest(first, body);
    } else if 0xa0 <= first <= 0xbf || 0xd9 <= first <= 0xdb {
      StrIsSmallest(first, length, body);
    }
  }

  lemma {:induction false} HeadersAreSmallest(first: Byte, length: Bytes, n: nat)
    requires FormatOf(first).Format? && |length| == FormatOf(first).lenBytes && n == FormatOf(first).base + BigEndian(length)
    requires n < LIMIT_32
    ensures FormatOf(first).shape == ArrayShape ==> |ArrayHeader(n)| <= 1 + |length|
    ensures FormatOf(first).shape == MapShape ==> |MapHeader(n)| <= 1 + |length|
  {
    LengthFits(length);
  }

  // An array of keys and values takes the bytes of the entries.
  lemma {:induction false} PairsTakeNoMore(items: seq<Object>)
    requires |items| % 2 == 0 && forall i :: 0 <= i < |items| ==> Packable(items[i])
    ensures |EncodeEntries(Pairs(items))| == |EncodeMany(items)|
  {
    if items != [] {
      PairsTakeNoMore(items[2..]);
      assert Pairs(items)[1..] == Pairs(items[2..]);
      assert items[1..][1..] == items[2..];
      assert EncodeMany(items) == Encode(items[0]) + (Encode(items[1]) + EncodeMany(items[2..]));
    }
  }

  lemma PairsArePackable(items: seq<Object>)
    requires |items| % 2 == 0 && Packable(Map(Pairs(items)))
    ensures forall i :: 0 <= i < |items| ==> Packable(items[i])
  {
    forall i | 0 <= i < |items| ensures Packable(items[i]) {
      assert Pairs(items)[i / 2] == Entry(items[2 * (i / 2)], items[2 * (i / 2) + 1]);
      assert i == 2 * (i / 2) || i == 2 * (i / 2) + 1;
    }
  }

  // A map read from a header and its items.
  lemma {:induction false} MapIsSmallest(first: Byte, length: Bytes, n: nat, items: seq<Object>, room: nat)
    requires FormatOf(first).Format? && FormatOf(first).shape == MapShape
    requires |length| == FormatOf(first).lenBytes && n == FormatOf(first).base + BigEndian(length)
    requires |items| == 2 * n && Packable(Map(Pairs(items)))
    requires (forall i :: 0 <= i < |items| ==> Packable(items[i])) && |EncodeMany(items)| <= room
    ensures |Encode(Map(Pairs(items)))| <= 1 + |length| + room
  {
    HeadersAreSmallest(first, length, n);
    PairsTakeNoMore(items);
  }

  lemma {:induction false} ArrayIsSmallest(first: Byte, length: Bytes, items: seq<Object>, room: nat)
    requires FormatOf(first).Format? && FormatOf(first).shape == ArrayShape
    requires |length| == FormatOf(first).lenBytes && |items| == FormatOf(first).base + BigEndian(length)
    requires Packable(Array(items)) && |EncodeMany(items)| <= room
    ensures |Encode(Array(items))| <= 1 + |length| + room
  {
    HeadersAreSmallest(first, length, |items|);
  }

  // Whatever the reader accepts for an object is at least as long as its encoding.
  lemma {:induction false} EncodeIsSmallest(b: Bytes)
    requires Read(b).Success? && Packable(Read(b).value)
    ensures |Encode(Read(b).value)| <= |b| - |Read(b).rest|
    decreases |b|, 0
  {
    var format := FormatOf(b[0]);
    var length, body := b[1..1 + format.lenBytes], b[1 + format.lenBytes..];
    var n := format.base + BigEndian(length);
    match format.shape {
      case LeafShape => LeafIsSmallest(b[0], length, body[..n]);
      case ArrayShape =>
        EncodeManyIsSmallest(n, body);
        ArrayIsSmallest(b[0], length, ReadMany(n, body).value, |body| - |Read(b).rest|);
      case MapShape =>
        var items := ReadMany(2 * n, body).value;
        PairsArePackable(items);
        EncodeManyIsSmallest(2 * n, body);
        MapIsSmallest(b[0], length, n, items, |body| - |Read(b).rest|);
    }
  }

  lemma {:induction false} EncodeManyIsSmallest(n: nat, b: Bytes)
    requires ReadMany(n, b).Success? && forall i :: 0 <= i < n ==> Packable(ReadMany(n, b).value[i])
    ensures |EncodeMany(ReadMany(n, b).value)| <= |b| - |ReadMany(n, b).rest|
    decreases |b|, 1
  {
    if n > 0 {
      var items, rest := ReadMany(n, b).value, Read(b).rest;
      assert items[1..] == ReadMany(n - 1, rest).value;
      assert items[0] == Read(b).value;
      EncodeIsSmallest(b);
      EncodeManyIsSmallest(n - 1, rest);
    }
  }
}
