/** The FNV-1a 64-bit hash and the byte streams it is fed (crates/atomr-accel-cuda/src/nvrtc_cache.rs). */
module Fnv {
  import opened Wrappers
  import opened Bytes

  const OFFSET_BASIS: u64 := 0xcbf2_9ce4_8422_2325
  const PRIME: u64 := 0x0000_0100_0000_01b3
  const MODULUS: nat := 0x1_0000_0000_0000_0000
  /** The multiplicative inverse of `PRIME` modulo 2^64. */
  const INVERSE: u64 := 0xce96_5057_aff6_957b

  // ----- one byte -----

  function Pow2(k: nat): nat {
    if k == 0 then 1 else 2 * Pow2(k - 1)
  }

  /** Exclusive or of the low `width` bits. */
  function Xor(a: nat, b: nat, width: nat): nat {
    if width == 0 then 0 else (if a % 2 == b % 2 then 0 else 1) + 2 * Xor(a / 2, b / 2, width - 1)
  }

  lemma {:induction false} XorProps(a: nat, b: nat, width: nat)
    ensures Xor(a, b, width) < Pow2(width)
    ensures Xor(a, b, width) == Xor(b, a, width)
    ensures a < Pow2(width) ==> Xor(Xor(a, b, width), b, width) == a
  {
    if width > 0 {
      XorProps(a / 2, b / 2, width - 1);
      Halves(if a % 2 == b % 2 then 0 else 1, Xor(a / 2, b / 2, width - 1));
    }
  }

  lemma Halves(bit: nat, rest: nat)
    requires bit < 2
    ensures (bit + 2 * rest) % 2 == bit && (bit + 2 * rest) / 2 == rest
  {}

  lemma EightBits()
    ensures Pow2(8) == 0x100
  {
    assert Pow2(4) == 16;
  }

  lemma XorFits(a: byte, b: byte)
    ensures Xor(a, b, 8) < 0x100
  {
    EightBits();
    XorProps(a, b, 8);
  }

  /** `h ^= b as u64`: only the low byte changes. */
  function XorLow(h: u64, b: byte): u64 {
    XorFits(h % 0x100, b);
    0x100 * (h / 0x100) + Xor(h % 0x100, b, 8)
  }

  /** `h ^= b; h = h.wrapping_mul(PRIME)`. */
  function Step(h: u64, b: byte): u64 {
    (XorLow(h, b) * PRIME) % MODULUS
  }

  /** Undo one step. */
  function Unstep(h: u64, b: byte): u64 {
    XorLow((h * INVERSE) % MODULUS, b)
  }

  lemma XorLowTwice(h: u64, b: byte)
    ensures XorLow(XorLow(h, b), b) == h
  {
    EightBits();
    XorProps(h % 0x100, b, 8);
    LowByte(Xor(h % 0x100, b, 8), h / 0x100);
  }

  lemma XorLowDistinguishes(h: u64, a: byte, b: byte)
    requires XorLow(h, a) == XorLow(h, b)
    ensures a == b
  {
    EightBits();
    var low := h % 0x100;
    XorProps(a, low, 8);
    XorProps(b, low, 8);
    XorProps(low, a, 8);
    XorProps(low, b, 8);
  }

  lemma QuotientIsUnique(x: int, q: int, r: int)
    requires x == q * MODULUS + r && 0 <= r < MODULUS
    ensures x % MODULUS == r
  {}

  /** Multiplying by the prime and by its inverse, in either order, is the identity modulo 2^64. */
  lemma MulInverse(h: u64)
    ensures (((h * PRIME) % MODULUS) * INVERSE) % MODULUS == h
    ensures (((h * INVERSE) % MODULUS) * PRIME) % MODULUS == h
  {
    var c := 887285111055;
    assert PRIME * INVERSE == c * MODULUS + 1;
    var q1 := (h * PRIME) / MODULUS;
    QuotientIsUnique(((h * PRIME) % MODULUS) * INVERSE, h * c - q1 * INVERSE, h);
    var q2 := (h * INVERSE) / MODULUS;
    QuotientIsUnique(((h * INVERSE) % MODULUS) * PRIME, h * c - q2 * PRIME, h);
  }

  /** Each byte step is a bijection on 64-bit states, and from one state different bytes lead to different states. */
  lemma StepIsBijective(h: u64, b: byte, b': byte)
    ensures Unstep(Step(h, b), b) == h && Step(Unstep(h, b), b) == h
    ensures Step(h, b) == Step(h, b') ==> b == b'
  {
    MulInverse(XorLow(h, b));
    XorLowTwice(h, b);
    var m := (h * INVERSE) % MODULUS;
    XorLowTwice(m, b);
    MulInverse(h);
    if Step(h, b) == Step(h, b') {
      MulInverse(XorLow(h, b'));
      XorLowDistinguishes(h, b, b');
    }
  }

  // ----- byte strings -----

  function Hash(h: u64, bytes: seq<byte>): u64 {
    if bytes == [] then h else Step(Hash(h, bytes[..|bytes| - 1]), bytes[|bytes| - 1])
  }

  lemma {:induction false} HashAppend(h: u64, a: seq<byte>, b: seq<byte>)
    ensures Hash(h, a + b) == Hash(Hash(h, a), b)
  {
    if b == [] {
      assert a + b == a;
    } else {
      HashAppend(h, a, b[..|b| - 1]);
      assert (a + b)[..|a + b| - 1] == a + b[..|b| - 1];
    }
  }

  /** A common suffix neither separates nor merges states. */
  lemma {:induction false} SuffixIsBijective(h1: u64, h2: u64, bytes: seq<byte>)
    ensures Hash(h1, bytes) == Hash(h2, bytes) <==> h1 == h2
  {
    if bytes != [] {
      var (before, last) := (bytes[..|bytes| - 1], bytes[|bytes| - 1]);
      SuffixIsBijective(h1, h2, before);
      StepIsBijective(Hash(h1, before), last, last);
      StepIsBijective(Hash(h2, before), last, last);
    }
  }

  /** Two inputs that differ in exactly one byte never collide. */
  lemma OneByteNeverCollides(h: u64, u: seq<byte>, a: byte, b: byte, w: seq<byte>)
    requires a != b
    ensures Hash(h, u + [a] + w) != Hash(h, u + [b] + w)
  {
    HashAppend(h, u + [a], w);
    HashAppend(h, u + [b], w);
    HashAppend(h, u, [a]);
    HashAppend(h, u, [b]);
    assert [a][..0] == [] && [b][..0] == [];
    StepIsBijective(Hash(h, u), a, b);
    SuffixIsBijective(Hash(h, u + [a]), Hash(h, u + [b]), w);
  }

  // ----- published values -----

  lemma MixedLowByte()
    ensures Xor(0x25, 0x61, 8) == 0x44
  {
    XorBit(0, 0, 0, 0, 0, 0);
    XorBit(0, 1, 0, 0, 0, 1);
    XorBit(1, 3, 0, 1, 1, 2);
    XorBit(2, 6, 1, 3, 2, 3);
    XorBit(4, 12, 2, 6, 4, 4);
    XorBit(9, 24, 4, 12, 8, 5);
    XorBit(18, 48, 9, 24, 17, 6);
    XorBit(37, 97, 18, 48, 34, 7);
  }

  lemma XorBit(a: nat, b: nat, a': nat, b': nat, rest: nat, width: nat)
    requires a / 2 == a' && b / 2 == b' && Xor(a', b', width) == rest
    ensures Xor(a, b, width + 1) == (if a % 2 == b % 2 then 0 else 1) + 2 * rest
  {}

  /** FNV-1a, 64 bits, of no bytes and of "a", as published with the algorithm. */
  lemma KnownHashes()
    ensures Hash(OFFSET_BASIS, []) == 0xcbf2_9ce4_8422_2325
    ensures Hash(OFFSET_BASIS, [0x61]) == 0xaf63_dc4c_8601_ec8c
  {
    KnownMix();
    KnownProduct();
    OneByteHash(OFFSET_BASIS, 0x61);
  }

  lemma KnownMix()
    ensures XorLow(OFFSET_BASIS, 0x61) == 0xcbf2_9ce4_8422_2344
  {
    MixedLowByte();
    LowByte(0x25, 0xcb_f29c_e484_2223);
    XorLowOf(OFFSET_BASIS, 0xcb_f29c_e484_2223, 0x25, 0x61, 0x44);
  }

  lemma XorLowOf(h: u64, high: nat, low: byte, b: byte, mixed: byte)
    requires h == 0x100 * high + low && Xor(low, b, 8) == mixed
    ensures XorLow(h, b) == 0x100 * high + mixed
  {
    LowByte(low, high);
  }

  lemma KnownProduct()
    ensures (0xcbf2_9ce4_8422_2344 * PRIME) % MODULUS == 0xaf63_dc4c_8601_ec8c
  {}

  lemma OneByteHash(h: u64, b: byte)
    ensures Hash(h, [b]) == Step(h, b)
  {
    assert [b][..0] == [] && [b][1..] == [];
  }

  class FnvHasher {
    var state: u64

    constructor ()
      ensures state == OFFSET_BASIS
    {
      state := OFFSET_BASIS;
    }

    method Write(bytes: seq<byte>)
      modifies this
      ensures state == Hash(old(state), bytes)
    {
      var h := state;
      for i := 0 to |bytes|
        invariant h == Hash(old(state), bytes[..i])
      {
        assert bytes[..i + 1][..i] == bytes[..i];
        h := Step(h, bytes[i]);
      }
      assert bytes[..|bytes|] == bytes;
      state := h;
    }
  }

  method HashSource(src: seq<byte>) returns (h: u64)
    ensures h == Hash(OFFSET_BASIS, src)
  {
    var hasher := new FnvHasher();
    hasher.Write(src);
    h := hasher.state;
  }

  // ----- the option stream -----

  /** A compile option as UTF-8 bytes; its length fits a `u64`. */
  type Opt = o: seq<byte> | |o| < 0x1_0000_0000_0000_0000

  /** One option as it is written: its length in eight bytes, its bytes, a 0xff byte. */
  function Framed(o: Opt): seq<byte> {
    LittleEndian(|o|, 8) + o + [0xff]
  }

  function OptionStream(opts: seq<Opt>): seq<byte> {
    if opts == [] then [] else Framed(opts[0]) + OptionStream(opts[1..])
  }

  /** The stream of the one option "a": its length in eight bytes, the byte, the separator. */
  lemma KnownOption()
    ensures OptionStream([[0x61]]) == [1, 0, 0, 0, 0, 0, 0, 0, 0x61, 0xff]
  {
    var length: seq<byte> := [1, 0, 0, 0, 0, 0, 0, 0];
    LittleEndianOfNumber(length);
    ZeroBytes(7);
    NumberCons(1, Zeros(7));
    assert [1] + Zeros(7) == length;
    assert [[0x61]][1..] == [] && OptionStream([]) == [];
  }

  function Zeros(n: nat): seq<byte> {
    seq(n, _ => 0)
  }

  lemma {:induction false} ZeroBytes(n: nat)
    ensures Number(Zeros(n)) == 0
  {
    if n > 0 {
      ZeroBytes(n - 1);
      assert Zeros(n)[1..] == Zeros(n - 1);
    }
  }

  lemma FramedPeel(a: Opt, b: Opt, ra: seq<byte>, rb: seq<byte>)
    requires Framed(a) + ra == Framed(b) + rb
    ensures a == b && ra == rb
  {
    Widths();
    FramedRegroup(a, ra);
    FramedRegroup(b, rb);
    LittleEndianPeel(|a|, |b|, 8, a + [0xff] + ra, b + [0xff] + rb);
    SameLengthPeel(a, b, ra, rb);
  }

  lemma FramedRegroup(a: Opt, ra: seq<byte>)
    ensures Framed(a) + ra == LittleEndian(|a|, 8) + (a + [0xff] + ra)
  {
    var n := LittleEndian(|a|, 8);
    Assoc(n, a, [0xff]);
    Assoc(n, a + [0xff], ra);
  }

  lemma SameLengthPeel(a: Opt, b: Opt, ra: seq<byte>, rb: seq<byte>)
    requires |a| == |b| && a + [0xff] + ra == b + [0xff] + rb
    ensures a == b && ra == rb
  {
    assert (a + [0xff] + ra)[..|a|] == a && (b + [0xff] + rb)[..|b|] == b;
    assert (a + [0xff] + ra)[|a| + 1..] == ra && (b + [0xff] + rb)[|b| + 1..] == rb;
  }

  /** The bytes fed to the option hash determine the option list: regrouping characters across options,
      reordering or dropping options always changes the stream. */
  lemma {:induction false} OptionStreamInjective(a: seq<Opt>, b: seq<Opt>)
    requires OptionStream(a) == OptionStream(b)
    ensures a == b
  {
    if a != [] && b != [] {
      FramedPeel(a[0], b[0], OptionStream(a[1..]), OptionStream(b[1..]));
      OptionStreamInjective(a[1..], b[1..]);
      assert a == [a[0]] + a[1..] && b == [b[0]] + b[1..];
    }
  }

  lemma {:induction false} OptionStreamAppend(a: seq<Opt>, b: seq<Opt>)
    ensures OptionStream(a + b) == OptionStream(a) + OptionStream(b)
  {
    if a == [] {
      assert a + b == b;
    } else {
      assert (a + b)[1..] == a[1..] + b;
      OptionStreamAppend(a[1..], b);
    }
  }

  /** Two option lists that differ in one byte of one option never collide. */
  lemma OneOptionByteNeverCollides(before: seq<Opt>, after: seq<Opt>, u: seq<byte>, a: byte, b: byte, w: seq<byte>)
    requires a != b && |u| + 1 + |w| < 0x1_0000_0000_0000_0000
    ensures Hash(OFFSET_BASIS, OptionStream(before + [u + [a] + w] + after)) !=
            Hash(OFFSET_BASIS, OptionStream(before + [u + [b] + w] + after))
  {
    OneOption(before, after, u, a, w);
    OneOption(before, after, u, b, w);
    OneByteNeverCollides(OFFSET_BASIS, OptionStream(before) + LittleEndian(|u| + 1 + |w|, 8) + u, a, b,
                         w + [0xff] + OptionStream(after));
  }

  lemma OneOption(before: seq<Opt>, after: seq<Opt>, u: seq<byte>, a: byte, w: seq<byte>)
    requires |u| + 1 + |w| < 0x1_0000_0000_0000_0000
    ensures OptionStream(before + [u + [a] + w] + after) ==
            (OptionStream(before) + LittleEndian(|u| + 1 + |w|, 8) + u) + [a] + (w + [0xff] + OptionStream(after))
  {
    var o: Opt := u + [a] + w;
    OptionStreamAppend(before + [o], after);
    OptionStreamAppend(before, [o]);
    assert OptionStream([o]) == Framed(o) + [] == Framed(o);
    Regroup(OptionStream(before), LittleEndian(|o|, 8), u, [a], w, [0xff], OptionStream(after));
  }

  lemma Regroup<T>(p: seq<T>, n: seq<T>, u: seq<T>, x: seq<T>, w: seq<T>, f: seq<T>, q: seq<T>)
    ensures (p + ((n + ((u + x) + w)) + f)) + q == (((p + n) + u) + x) + ((w + f) + q)
  {
    Assoc(p, (n + ((u + x) + w)) + f, q);
    Assoc(n + ((u + x) + w), f, q);
    Assoc(n, (u + x) + w, f + q);
    Assoc(u + x, w, f + q);
    Assoc(u, x, w + (f + q));
    Assoc(w, f, q);
    Assoc(p, n, u + (x + (w + (f + q))));
    Assoc(p + n, u, x + (w + (f + q)));
    Assoc((p + n) + u, x, w + (f + q));
  }

  method HashOptions(opts: seq<Opt>) returns (h: u64)
    ensures h == Hash(OFFSET_BASIS, OptionStream(opts))
  {
    var hasher := new FnvHasher();
    for i := 0 to |opts|
      invariant hasher.state == Hash(OFFSET_BASIS, OptionStream(opts[..i]))
    {
      ghost var s := hasher.state;
      hasher.Write(LittleEndian(|opts[i]|, 8));
      hasher.Write(opts[i]);
      hasher.Write([0xff]);
      HashAppend(s, LittleEndian(|opts[i]|, 8), opts[i]);
      HashAppend(s, LittleEndian(|opts[i]|, 8) + opts[i], [0xff]);
      assert opts[..i + 1] == opts[..i] + [opts[i]];
      OptionStreamAppend(opts[..i], [opts[i]]);
      assert OptionStream([opts[i]]) == Framed(opts[i]) + [] == Framed(opts[i]);
      HashAppend(OFFSET_BASIS, OptionStream(opts[..i]), Framed(opts[i]));
    }
    assert opts[..|opts|] == opts;
    h := hasher.state;
  }
}
