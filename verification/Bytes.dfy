/** Byte strings and the little-endian encodings that the hashers are fed. */
module Bytes {

  type byte = n: nat | n < 0x100
  type u32 = n: nat | n < 0x1_0000_0000
  type u64 = n: nat | n < 0x1_0000_0000_0000_0000

  /** The bytes of an ASCII string. */
  function Ascii(s: string): seq<byte> {
    seq(|s|, i requires 0 <= i < |s| => (s[i] as int) % 0x100)
  }

  /** `v` in `width` bytes, least significant first. */
  function LittleEndian(v: nat, width: nat): seq<byte> {
    if width == 0 then [] else [v % 0x100] + LittleEndian(v / 0x100, width - 1)
  }

  function Pow256(width: nat): nat {
    if width == 0 then 1 else 0x100 * Pow256(width - 1)
  }

  lemma {:induction false} LittleEndianLength(v: nat, width: nat)
    ensures |LittleEndian(v, width)| == width
  {
    if width > 0 {
      LittleEndianLength(v / 0x100, width - 1);
    }
  }

  /** The number that bytes denote, least significant first. */
  function Number(bytes: seq<byte>): nat {
    if bytes == [] then 0 else bytes[0] + 0x100 * Number(bytes[1..])
  }

  /** Writing out a number gives back the bytes that denote it. */
  lemma {:induction false} LittleEndianOfNumber(bytes: seq<byte>)
    ensures LittleEndian(Number(bytes), |bytes|) == bytes
  {
    if bytes != [] {
      LittleEndianOfNumber(bytes[1..]);
      LowByte(bytes[0], Number(bytes[1..]));
    }
  }

  lemma LowByte(low: byte, high: nat)
    ensures (low + 0x100 * high) % 0x100 == low && (low + 0x100 * high) / 0x100 == high
  {}

  lemma FourBytes(a: byte, b: byte, c: byte, d: byte)
    ensures LittleEndian(a + 0x100 * b + 0x1_0000 * c + 0x100_0000 * d, 4) == [a, b, c, d]
  {
    LittleEndianOfNumber([a, b, c, d]);
    NumberCons(d, []);
    NumberCons(c, [d]);
    NumberCons(b, [c, d]);
    NumberCons(a, [b, c, d]);
    assert [d] + [] == [d] && [c] + [d] == [c, d] && [b] + [c, d] == [b, c, d] && [a] + [b, c, d] == [a, b, c, d];
  }

  lemma NumberCons(b: byte, rest: seq<byte>)
    ensures Number([b] + rest) == b + 0x100 * Number(rest)
  {
    assert ([b] + rest)[1..] == rest;
  }

  /** A fixed-width number at the front of a stream is determined, and so is what follows it. */
  lemma {:induction false} LittleEndianPeel(a: nat, b: nat, width: nat, ra: seq<byte>, rb: seq<byte>)
    requires a < Pow256(width) && b < Pow256(width)
    requires LittleEndian(a, width) + ra == LittleEndian(b, width) + rb
    ensures a == b && ra == rb
  {
    if width == 0 {
      assert [] + ra == ra && [] + rb == rb;
    } else {
      var (ta, tb) := (LittleEndian(a / 0x100, width - 1), LittleEndian(b / 0x100, width - 1));
      var (sa, sb) := (LittleEndian(a, width) + ra, LittleEndian(b, width) + rb);
      assert sa[0] == a % 0x100 && sb[0] == b % 0x100;
      assert sa[1..] == ta + ra && sb[1..] == tb + rb;
      LittleEndianPeel(a / 0x100, b / 0x100, width - 1, ra, rb);
    }
  }

  lemma Widths()
    ensures Pow256(4) == 0x1_0000_0000 && Pow256(8) == 0x1_0000_0000_0000_0000
  {
    assert Pow256(1) == 0x100;
    assert Pow256(2) == 0x1_0000;
    assert Pow256(3) == 0x100_0000;
    assert Pow256(4) == 0x1_0000_0000;
    assert Pow256(5) == 0x100_0000_0000;
    assert Pow256(6) == 0x1_0000_0000_0000;
    assert Pow256(7) == 0x100_0000_0000_0000;
  }
}
