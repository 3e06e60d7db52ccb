/** Bytes and the fixed-width integers that travel over the wire. */
module Bytes {

  type Byte = x: int | 0 <= x < 256

  type U32 = x: int | 0 <= x < 0x1_0000_0000

  function U32ToBe(n: U32): (bytes: seq<Byte>)
    ensures |bytes| == 4
  {
    [n / 0x100_0000, n / 0x1_0000 % 0x100, n / 0x100 % 0x100, n % 0x100]
  }

  function U32FromBe(bytes: seq<Byte>): U32
    requires |bytes| == 4
  {
    bytes[0] as int * 0x100_0000 + bytes[1] as int * 0x1_0000 + bytes[2] as int * 0x100 + bytes[3]
  }

  function U32FromLe(bytes: seq<Byte>): U32
    requires |bytes| == 4
  {
    bytes[3] as int * 0x100_0000 + bytes[2] as int * 0x1_0000 + bytes[1] as int * 0x100 + bytes[0]
  }

  /** A signed 32-bit value read as an unsigned 64-bit size: a negative one becomes enormous. */
  function SizeFromLe(bytes: seq<Byte>): nat
    requires |bytes| == 4
  {
    var n := U32FromLe(bytes);
    if n < 0x8000_0000 then n else n + 0xFFFF_FFFF_0000_0000
  }

  function U16ToBe(word: bv16): (bytes: seq<Byte>)
    ensures |bytes| == 2
  {
    [(word >> 8) as bv8 as int, (word & 0xFF) as bv8 as int]
  }

  function U16FromBe(bytes: seq<Byte>): bv16
    requires |bytes| == 2
  {
    ((bytes[0] as bv8 as bv16) << 8) | (bytes[1] as bv8 as bv16)
  }

  /** The number whose base-256 digits these are, the most significant first. */
  function Number(bytes: seq<Byte>): nat {
    if bytes == [] then 0 else 256 * Number(bytes[..|bytes| - 1]) + bytes[|bytes| - 1]
  }

  lemma NumberAppend(bytes: seq<Byte>, last: Byte)
    ensures Number(bytes + [last]) == 256 * Number(bytes) + last
  {
    assert (bytes + [last])[..|bytes|] == bytes;
  }

  lemma NumberOfFour(a: Byte, b: Byte, c: Byte, d: Byte)
    ensures Number([a, b, c, d]) == 0x100_0000 * a as int + 0x1_0000 * b as int + 0x100 * c as int + d
  {
    NumberAppend([], a);
    NumberAppend([a], b);
    NumberAppend([a, b], c);
    NumberAppend([a, b, c], d);
    assert [] + [a] == [a] && [a] + [b] == [a, b] && [a, b] + [c] == [a, b, c] && [a, b, c] + [d] == [a, b, c, d];
  }

  /** A little-endian number is the one whose digits stand in the reverse order. */
  lemma LittleEndian(bytes: seq<Byte>)
    requires |bytes| == 4
    ensures U32FromLe(bytes) == Number([bytes[3], bytes[2], bytes[1], bytes[0]])
  {
    NumberOfFour(bytes[3], bytes[2], bytes[1], bytes[0]);
  }

  lemma LittleEndianForm(n: U32)
    ensures U32FromLe([n % 256, n / 256 % 256, n / 65536 % 256, n / 16777216]) == n
  {
    var a, b, c := n / 256, n / 65536, n / 16777216;
    assert a / 256 == b && b / 256 == c && c < 256;
  }

  /** Read as a size, a number with its top bit set is larger than any buffer. */
  lemma NegativeSize(bytes: seq<Byte>)
    requires |bytes| == 4
    ensures bytes[3] >= 128 ==> SizeFromLe(bytes) >= 0x1_0000_0000
    ensures bytes[3] < 128 ==> SizeFromLe(bytes) == U32FromLe(bytes)
  {
  }

  /** The four bytes of a big-endian number are its base-256 digits, the most significant first. */
  lemma BigEndian(n: U32)
    ensures Number(U32ToBe(n)) == n
  {
    var bytes := U32ToBe(n);
    var a, b, c := n / 0x100, n / 0x1_0000, n / 0x100_0000;
    assert a / 0x100 == b && b / 0x100 == c && c < 0x100;
    NumberOfFour(bytes[0], bytes[1], bytes[2], bytes[3]);
    assert bytes == [bytes[0], bytes[1], bytes[2], bytes[3]];
  }

  lemma BigEndianWord(word: bv16)
    ensures U16ToBe(word)[0] == (word >> 8) as int && U16ToBe(word)[1] == (word & 0xFF) as int
  {
    var high, low := word >> 8, word & 0xFF;
    HighByte(word, high);
    LowByte(word, low);
  }

  lemma HighByte(word: bv16, high: bv16)
    requires high == word >> 8
    ensures high as bv8 as int == high as int
  {
  }

  lemma LowByte(word: bv16, low: bv16)
    requires low == word & 0xFF
    ensures low as bv8 as int == low as int
  {
  }

  lemma U32BeRoundTrip(n: U32)
    ensures U32FromBe(U32ToBe(n)) == n
  {
    var a, b, c := n / 0x100, n / 0x1_0000, n / 0x100_0000;
    assert a / 0x100 == b && b / 0x100 == c && c < 0x100;
  }

  lemma U16BeRoundTrip(word: bv16)
    ensures U16FromBe(U16ToBe(word)) == word
  {
    var high, low := (word >> 8) as bv8, (word & 0xFF) as bv8;
    ByteRoundTrip(high);
    ByteRoundTrip(low);
    HalvesMakeWord(word, high, low);
  }

  lemma ByteRoundTrip(b: bv8)
    ensures (b as int) as bv8 == b
  {
  }

  lemma HalvesMakeWord(word: bv16, high: bv8, low: bv8)
    requires high == (word >> 8) as bv8 && low == (word & 0xFF) as bv8
    ensures ((high as bv16) << 8) | (low as bv16) == word
  {
  }
}
