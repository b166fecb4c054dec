/** Integers of fixed width, optional values and key text, as the C sources use them. */
module Base {
  datatype Option<+T> = None | Some(value: T)

  type Byte = x: int | 0 <= x < 0x100
  type UInt32 = x: int | 0 <= x < 0x1_0000_0000
  type Int32 = x: int | -0x8000_0000 <= x < 0x8000_0000

  type Bytes = seq<Byte>

  // The C conversion to uint32_t: reduction modulo 2^32.
  function ToUInt32(n: int): UInt32 {
    n % 0x1_0000_0000
  }

  // The C conversion to int32_t, and two's complement addition: the representative modulo 2^32.
  function ToInt32(n: int): Int32 {
    (n + 0x8000_0000) % 0x1_0000_0000 - 0x8000_0000
  }

  // Wrapping early or late gives the same sum.
  lemma WrapOfSum(a: int, b: int)
    ensures ToInt32(ToInt32(a) + b) == ToInt32(a + b)
  {
    var q := (a + 0x8000_0000) / 0x1_0000_0000;
    assert ToInt32(a) + b + 0x8000_0000 == a + b + 0x8000_0000 - q * 0x1_0000_0000;
  }

  predicate IsAscii(s: string) {
    forall i :: 0 <= i < |s| ==> s[i] as int < 0x80
  }

  // The bytes of an ASCII string literal, without the terminating zero.
  function Ascii(s: string): (b: Bytes)
    requires IsAscii(s)
    ensures |b| == |s|
    ensures forall i :: 0 <= i < |s| ==> b[i] == s[i] as int
  {
    seq(|s|, i requires 0 <= i < |s| => s[i] as int)
  }

  lemma ConcatAssociates<T>(a: seq<T>, b: seq<T>, c: seq<T>)
    ensures a + b + c == a + (b + c)
  {
  }

  lemma TwoInFront<T>(x: T, y: T, s: seq<T>)
    ensures [x] + ([y] + s) == [x, y] + s
  {
  }
}
