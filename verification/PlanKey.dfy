/** Plan-cache keys: three hash lanes fed the same request in three disguises
    (crates/atomr-accel-cutlass/src/plan_cache.rs). */
module PlanKey {
  import opened Wrappers
  import opened Bytes
  import opened Text
  import opened Cutlass

  datatype GemmLayout = RowMajor | ColMajor

  /** `alpha` and `beta` are the bit patterns of `f32` values. */
  datatype GemmEpilogue = Epilogue(kind: EpilogueKind, alpha: u32, beta: u32)

  datatype EpilogueKind = Linear | LinearReLU | LinearGelu {
    function ShortName(): string {
      match this
      case Linear => "linear"
      case LinearReLU => "linear_relu"
      case LinearGelu => "linear_gelu"
    }
  }

  datatype GemmRequest = GemmRequest(
    dtype: Dtype,
    m: u32, n: u32, k: u32,
    layoutA: GemmLayout, layoutB: GemmLayout, layoutC: GemmLayout,
    epilogue: GemmEpilogue,
    accum: Dtype, output: Dtype,
    arch: SmArch,
    persistent: bool)

  datatype ConvKind = Fprop | Dgrad | Wgrad {
    function ShortName(): string {
      match this
      case Fprop => "fprop"
      case Dgrad => "dgrad"
      case Wgrad => "wgrad"
    }
  }

  datatype ConvLayout = Nhwc | Nchw {
    function ShortName(): string {
      match this
      case Nhwc => "nhwc"
      case Nchw => "nchw"
    }
  }

  datatype ConvShape = ConvShape(
    n: u32, h: u32, w: u32, c: u32, k: u32, r: u32, s: u32,
    padH: u32, padW: u32, strideH: u32, strideW: u32, dilH: u32, dilW: u32)

  datatype ConvRequest = ConvRequest(
    kind: ConvKind, dtype: Dtype, shape: ConvShape, layout: ConvLayout, accum: Dtype, output: Dtype, arch: SmArch)

  // ----- what one lane is fed -----

  datatype Lane = A | B | C

  function Seed(l: Lane): u64 {
    match l
    case A => 0xA5A5_A5A5_A5A5_A5A5
    case B => 0x5A5A_5A5A_5A5A_5A5A
    case C => 0xC3C3_C3C3_C3C3_C3C3
  }

  /** `wrapping_add` of the lane's offset. */
  function LaneU8(l: Lane, v: byte): byte {
    match l
    case A => v
    case B => (v + 0x55) % 0x100
    case C => (v + 0xAA) % 0x100
  }

  /** `rotate_left` by 0, 11 and 23. */
  function LaneU32(l: Lane, v: u32): u32 {
    match l
    case A => v
    case B => (v % 0x20_0000) * 0x800 + v / 0x20_0000
    case C => (v % 0x200) * 0x80_0000 + v / 0x200
  }

  /** One call of an `add_` method. */
  datatype Field = OneByte(b: byte) | Word(u: u32) | Chars(s: string)

  /** The bytes a call adds to a lane; a string is neither terminated nor prefixed by its length. */
  function Fed(l: Lane, f: Field): seq<byte> {
    match f
    case OneByte(b) => [LaneU8(l, b)]
    case Word(u) => LittleEndian(LaneU32(l, u), 4)
    case Chars(s) => Ascii(s)
  }

  function FedAll(l: Lane, fs: seq<Field>): seq<byte> {
    if fs == [] then [] else Fed(l, fs[0]) + FedAll(l, fs[1..])
  }

  function Stream(l: Lane, fs: seq<Field>): seq<byte> {
    LittleEndian(Seed(l), 8) + FedAll(l, fs)
  }

  function LayoutByte(layout: GemmLayout): byte {
    if layout == RowMajor then 0 else 1
  }

  function BoolByte(b: bool): byte {
    if b then 1 else 0
  }

  /** The `add_` calls of `PlanKey::gemm` up to the architecture. */
  function GemmFront(r: GemmRequest): seq<Field> {
    [Word(r.m), Word(r.n), Word(r.k),
     OneByte(LayoutByte(r.layoutA)), OneByte(LayoutByte(r.layoutB)), OneByte(LayoutByte(r.layoutC)),
     Chars(r.dtype.ShortName()), Chars(r.accum.ShortName()), Chars(r.output.ShortName())]
  }

  /** The calls after the architecture. */
  function GemmBack(r: GemmRequest): seq<Field> {
    [OneByte(BoolByte(r.persistent)),
     Chars(r.epilogue.kind.ShortName()), Word(r.epilogue.alpha), Word(r.epilogue.beta)]
  }

  function GemmFields(r: GemmRequest): seq<Field> {
    GemmFront(r) + ([Chars(r.arch.ShortName())] + GemmBack(r))
  }

  function Extents(s: ConvShape): seq<Field> {
    [Word(s.n), Word(s.h), Word(s.w), Word(s.c), Word(s.k), Word(s.r), Word(s.s)]
  }

  function Steps(s: ConvShape): seq<Field> {
    [Word(s.padH), Word(s.padW), Word(s.strideH), Word(s.strideW), Word(s.dilH), Word(s.dilW)]
  }

  function ConvNames(r: ConvRequest): seq<Field> {
    [Chars(r.layout.ShortName()), Chars(r.dtype.ShortName()), Chars(r.accum.ShortName()), Chars(r.output.ShortName())]
  }

  /** The `add_` calls of `PlanKey::conv` up to the architecture, which comes last. */
  function ConvFront(r: ConvRequest): seq<Field> {
    [Chars(r.kind.ShortName())] + Extents(r.shape) + Steps(r.shape) + ConvNames(r)
  }

  function ConvFields(r: ConvRequest): seq<Field> {
    ConvFront(r) + [Chars(r.arch.ShortName())]
  }

  // ----- known keys -----

  /** What a lane is fed for one byte or one string: lane A as it is, B and C with an offset that wraps. */
  lemma KnownBytes()
    ensures Fed(A, OneByte(1)) == [1] && Fed(B, OneByte(1)) == [0x56] && Fed(C, OneByte(1)) == [0xAB]
    ensures Fed(B, OneByte(0xff)) == [0x54] && Fed(C, OneByte(0xff)) == [0xA9]
    ensures forall l :: Fed(l, Chars("a1")) == [0x61, 0x31]
  {}

  /** And for one number: in little endian, rotated left by 11 and by 23 in lanes B and C. */
  lemma KnownWordsA()
    ensures Fed(A, Word(0x4030_2010)) == [0x10, 0x20, 0x30, 0x40]
  {
    FourBytes(0x10, 0x20, 0x30, 0x40);
  }

  lemma KnownWordsB()
    ensures Fed(B, Word(1)) == [0, 8, 0, 0] && Fed(B, Word(0x8000_0000)) == [0, 4, 0, 0]
  {
    FourBytes(0, 8, 0, 0);
    FourBytes(0, 4, 0, 0);
  }

  lemma KnownWordsC()
    ensures Fed(C, Word(1)) == [0, 0, 0x80, 0] && Fed(C, Word(0x8000_0000)) == [0, 0, 0x40, 0]
  {
    FourBytes(0, 0, 0x80, 0);
    FourBytes(0, 0, 0x40, 0);
  }

  /** Every lane starts with its own seed. */
  lemma KnownSeeds()
    ensures Stream(A, []) == Eight(0xA5) && Stream(B, []) == Eight(0x5A) && Stream(C, []) == Eight(0xC3)
  {
    EightBytes(0xA5, Seed(A));
    EightBytes(0x5A, Seed(B));
    EightBytes(0xC3, Seed(C));
  }

  function Eight(b: byte): seq<byte> {
    [b, b, b, b, b, b, b, b]
  }

  lemma EightBytes(b: byte, v: u64)
    requires v == 0x0101_0101_0101_0101 * b
    ensures LittleEndian(v, 8) + [] == Eight(b)
  {
    LittleEndianOfNumber(Eight(b));
    NumberCons(b, []);
    NumberCons(b, [b]);
    NumberCons(b, [b, b]);
    NumberCons(b, [b, b, b]);
    NumberCons(b, [b, b, b, b]);
    NumberCons(b, [b, b, b, b, b]);
    NumberCons(b, [b, b, b, b, b, b]);
    NumberCons(b, [b, b, b, b, b, b, b]);
    assert [b] + [] == [b] && [b] + [b] == [b, b] && [b] + [b, b] == [b, b, b] && [b] + [b, b, b] == [b, b, b, b];
    assert [b] + [b, b, b, b] == [b, b, b, b, b] && [b] + [b, b, b, b, b] == [b, b, b, b, b, b];
    assert [b] + [b, b, b, b, b, b] == [b, b, b, b, b, b, b] && [b] + [b, b, b, b, b, b, b] == Eight(b);
  }

  /** The calls for one GEMM, in order. */
  lemma KnownGemm(alpha: u32, beta: u32)
    ensures GemmFields(GemmRequest(F16, 1, 2, 3, RowMajor, ColMajor, RowMajor, Epilogue(Linear, alpha, beta), F32, Bf16,
                                   Sm90a, true)) ==
            [Word(1), Word(2), Word(3), OneByte(0), OneByte(1), OneByte(0), Chars("f16"), Chars("f32"), Chars("bf16"),
             Chars("sm_90a"), OneByte(1), Chars("linear"), Word(alpha), Word(beta)]
  {}

  /** The calls for one convolution, in order. */
  lemma KnownConv()
    ensures ConvFields(ConvRequest(Dgrad, F8E4m3, ConvShape(1, 2, 3, 4, 5, 6, 7, 8, 9, 10, 11, 12, 13), Nchw, F32, F16,
                                   Sm100)) ==
            [Chars("dgrad"), Word(1), Word(2), Word(3), Word(4), Word(5), Word(6), Word(7), Word(8), Word(9), Word(10),
             Word(11), Word(12), Word(13), Chars("nchw"), Chars("f8e4m3"), Chars("f32"), Chars("f16"), Chars("sm_100")]
  {}

  /** The first component of a key tells the two kinds apart, the others are the hashes of the lanes in order. */
  lemma KnownKey(hash: HashFn, g: GemmRequest, c: ConvRequest)
    ensures var k := KeyOf(hash, Gemm(g));
            && k.templateId == 1 && k.a == hash(Stream(A, GemmFields(g)))
            && k.b == hash(Stream(B, GemmFields(g))) && k.c == hash(Stream(C, GemmFields(g)))
    ensures var k := KeyOf(hash, Conv(c));
            && k.templateId == 3 && k.a == hash(Stream(A, ConvFields(c)))
            && k.b == hash(Stream(B, ConvFields(c))) && k.c == hash(Stream(C, ConvFields(c)))
  {}

  // ----- unique decoding -----

  lemma LaneU8Injective(l: Lane, a: byte, b: byte)
    requires LaneU8(l, a) == LaneU8(l, b)
    ensures a == b
  {
    match l
    case A =>
    case B =>
      WrappingAdd(a, 0x55);
      WrappingAdd(b, 0x55);
    case C =>
      WrappingAdd(a, 0xAA);
      WrappingAdd(b, 0xAA);
  }

  lemma WrappingAdd(v: byte, offset: byte)
    ensures (v + offset) % 0x100 == if v + offset < 0x100 then v + offset else v + offset - 0x100
  {}

  lemma RotationParts(v: u32)
    ensures LaneU32(B, v) % 0x800 == v / 0x20_0000 && LaneU32(B, v) / 0x800 == v % 0x20_0000
    ensures LaneU32(C, v) % 0x80_0000 == v / 0x200 && LaneU32(C, v) / 0x80_0000 == v % 0x200
  {
    SplitB(v % 0x20_0000, v / 0x20_0000);
    SplitC(v % 0x200, v / 0x200);
  }

  lemma SplitB(high: nat, low: nat)
    requires low < 0x800
    ensures (high * 0x800 + low) % 0x800 == low && (high * 0x800 + low) / 0x800 == high
  {}

  lemma SplitC(high: nat, low: nat)
    requires low < 0x80_0000
    ensures (high * 0x80_0000 + low) % 0x80_0000 == low && (high * 0x80_0000 + low) / 0x80_0000 == high
  {}

  lemma LaneU32Injective(l: Lane, a: u32, b: u32)
    requires LaneU32(l, a) == LaneU32(l, b)
    ensures a == b
  {
    RotationParts(a);
    RotationParts(b);
  }

  /** Two calls that can stand at the same place without ambiguity: both numbers of one width,
      or two names neither of which is a prefix of the other. */
  ghost predicate SameSlot(x: Field, y: Field) {
    match x
    case OneByte(_) => y.OneByte?
    case Word(_) => y.Word?
    case Chars(s) => y.Chars? && (y.s == s || Diverge(Ascii(s), Ascii(y.s)))
  }

  ghost predicate SameSlots(f: seq<Field>, g: seq<Field>) {
    |f| == |g| && forall i :: 0 <= i < |f| ==> SameSlot(f[i], g[i])
  }

  lemma FieldPeel(l: Lane, x: Field, y: Field, rx: seq<byte>, ry: seq<byte>)
    requires SameSlot(x, y) && Fed(l, x) + rx == Fed(l, y) + ry
    ensures x == y && rx == ry
  {
    match x
    case OneByte(b) =>
      assert (Fed(l, x) + rx)[0] == LaneU8(l, b) && (Fed(l, y) + ry)[0] == LaneU8(l, y.b);
      LaneU8Injective(l, b, y.b);
      assert (Fed(l, x) + rx)[1..] == rx && (Fed(l, y) + ry)[1..] == ry;
    case Word(u) =>
      Widths();
      LittleEndianPeel(LaneU32(l, u), LaneU32(l, y.u), 4, rx, ry);
      LaneU32Injective(l, u, y.u);
    case Chars(s) =>
      NoDivergence(Ascii(s), Ascii(y.s), rx, ry);
      assert (Fed(l, x) + rx)[|s|..] == rx && (Fed(l, y) + ry)[|y.s|..] == ry;
  }

  lemma NoDivergence(a: seq<byte>, b: seq<byte>, ra: seq<byte>, rb: seq<byte>)
    requires a + ra == b + rb
    ensures !Diverge(a, b)
  {
    forall p | 0 <= p < |a| && p < |b| ensures a[p] == b[p] {
      assert (a + ra)[p] == a[p] && (b + rb)[p] == b[p];
    }
  }

  /** A run of unambiguous calls is determined by its bytes, whatever follows. */
  lemma {:induction false} FrontPeel(l: Lane, f: seq<Field>, g: seq<Field>, rf: seq<byte>, rg: seq<byte>)
    requires SameSlots(f, g)
    requires FedAll(l, f) + rf == FedAll(l, g) + rg
    ensures f == g && rf == rg
  {
    if f == [] {
      assert [] + rf == rf && [] + rg == rg;
    } else {
      Assoc(Fed(l, f[0]), FedAll(l, f[1..]), rf);
      Assoc(Fed(l, g[0]), FedAll(l, g[1..]), rg);
      FieldPeel(l, f[0], g[0], FedAll(l, f[1..]) + rf, FedAll(l, g[1..]) + rg);
      FrontPeel(l, f[1..], g[1..], rf, rg);
      assert f == [f[0]] + f[1..] && g == [g[0]] + g[1..];
    }
  }

  lemma {:induction false} FedAllAppend(l: Lane, f: seq<Field>, g: seq<Field>)
    ensures FedAll(l, f + g) == FedAll(l, f) + FedAll(l, g)
  {
    if f == [] {
      assert f + g == g;
    } else {
      assert (f + g)[1..] == f[1..] + g;
      FedAllAppend(l, f[1..], g);
      Assoc(Fed(l, f[0]), FedAll(l, f[1..]), FedAll(l, g));
    }
  }

  lemma DtypeSlot(a: Dtype, b: Dtype)
    ensures SameSlot(Chars(a.ShortName()), Chars(b.ShortName()))
    ensures a.ShortName() == b.ShortName() ==> a == b
  {
    ShortNamesPrefixFree();
    AllDtypes(a);
    AllDtypes(b);
    if a != b {
      assert Diverge(ShortBytes(a), ShortBytes(b));
    }
  }

  /** The one pair of architectures whose names are not told apart by themselves is sm_90 and sm_90a;
      the byte that follows decides, because no lane ever writes an 'a' there. */
  lemma ArchPeel(a: SmArch, b: SmArch, x: byte, y: byte, rx: seq<byte>, ry: seq<byte>)
    requires x != 0x61 && y != 0x61
    requires Ascii(a.ShortName()) + ([x] + rx) == Ascii(b.ShortName()) + ([y] + ry)
    ensures a == b && x == y && rx == ry
  {
    var (s, t) := (Ascii(a.ShortName()) + ([x] + rx), Ascii(b.ShortName()) + ([y] + ry));
    assert s[3] == t[3] && s[4] == t[4] && s[5] == t[5];
    var (p, q) := (a.ShortName(), b.ShortName());
    assert s[3] == p[3] as int && s[4] == p[4] as int && t[3] == q[3] as int && t[4] == q[4] as int;
    assert s[5] == if |p| == 5 then x else p[5] as int;
    assert t[5] == if |q| == 5 then y else q[5] as int;
    assert p == q;
    assert s[|p|..] == [x] + rx && t[|q|..] == [y] + ry;
    assert ([x] + rx)[0] == x && ([y] + ry)[0] == y;
    assert ([x] + rx)[1..] == rx && ([y] + ry)[1..] == ry;
  }

  lemma ArchEnd(a: SmArch, b: SmArch)
    requires Ascii(a.ShortName()) == Ascii(b.ShortName())
    ensures a == b
  {
    var (p, q) := (a.ShortName(), b.ShortName());
    assert |p| == |Ascii(p)| == |Ascii(q)| == |q|;
    assert Ascii(p)[3] == p[3] as int && Ascii(q)[3] == q[3] as int;
    assert Ascii(p)[4] == p[4] as int && Ascii(q)[4] == q[4] as int;
  }

  /** "linear" is a prefix of the other two names; the fixed length of what follows decides. */
  lemma EpiloguePeel(l: Lane, a: GemmEpilogue, b: GemmEpilogue)
    requires FedAll(l, EpilogueFields(a)) == FedAll(l, EpilogueFields(b))
    ensures a == b
  {
    EpilogueBytes(l, a);
    EpilogueBytes(l, b);
    WordsLength(l, a);
    WordsLength(l, b);
    KindPeel(a.kind, b.kind, Words(l, a), Words(l, b));
    FieldPeel(l, Word(a.alpha), Word(b.alpha), Fed(l, Word(a.beta)), Fed(l, Word(b.beta)));
    assert Fed(l, Word(a.beta)) + [] == Fed(l, Word(a.beta)) && Fed(l, Word(b.beta)) + [] == Fed(l, Word(b.beta));
    FieldPeel(l, Word(a.beta), Word(b.beta), [], []);
  }

  /** Before texts of one length the three names are told apart by their length or their eighth character. */
  lemma KindPeel(a: EpilogueKind, b: EpilogueKind, wa: seq<byte>, wb: seq<byte>)
    requires |wa| == |wb| && Ascii(a.ShortName()) + wa == Ascii(b.ShortName()) + wb
    ensures a == b && wa == wb
  {
    var (p, q) := (a.ShortName(), b.ShortName());
    var (s, t) := (Ascii(p) + wa, Ascii(q) + wb);
    assert |p| == |q|;
    assert s[|p|..] == wa && t[|q|..] == wb;
    if |p| > 6 {
      assert s[7] == p[7] as int && t[7] == q[7] as int;
    }
  }

  function EpilogueFields(e: GemmEpilogue): seq<Field> {
    [Chars(e.kind.ShortName()), Word(e.alpha), Word(e.beta)]
  }

  function Words(l: Lane, e: GemmEpilogue): seq<byte> {
    Fed(l, Word(e.alpha)) + Fed(l, Word(e.beta))
  }

  lemma WordsLength(l: Lane, e: GemmEpilogue)
    ensures |Words(l, e)| == 8
  {
    LittleEndianLength(LaneU32(l, e.alpha), 4);
    LittleEndianLength(LaneU32(l, e.beta), 4);
  }

  lemma EpilogueBytes(l: Lane, e: GemmEpilogue)
    ensures FedAll(l, EpilogueFields(e)) == Ascii(e.kind.ShortName()) + Words(l, e)
  {
    var fs := EpilogueFields(e);
    assert fs[1..] == [Word(e.alpha), Word(e.beta)];
    assert fs[1..][1..] == [Word(e.beta)];
    assert FedAll(l, [Word(e.beta)]) == Fed(l, Word(e.beta)) + [] == Fed(l, Word(e.beta));
  }

  lemma GemmSlots(a: GemmRequest, b: GemmRequest)
    ensures SameSlots(GemmFront(a), GemmFront(b))
    ensures GemmFront(a) == GemmFront(b) ==>
      a == b.(arch := a.arch, persistent := a.persistent, epilogue := a.epilogue)
  {
    DtypeSlot(a.dtype, b.dtype);
    DtypeSlot(a.accum, b.accum);
    DtypeSlot(a.output, b.output);
    if GemmFront(a) == GemmFront(b) {
      var (f, g) := (GemmFront(a), GemmFront(b));
      assert f[0] == g[0] && f[1] == g[1] && f[2] == g[2] && f[3] == g[3] && f[4] == g[4];
      assert f[5] == g[5] && f[6] == g[6] && f[7] == g[7] && f[8] == g[8];
    }
  }

  lemma GemmBytes(l: Lane, r: GemmRequest)
    ensures FedAll(l, GemmFields(r)) ==
            FedAll(l, GemmFront(r)) +
            (Ascii(r.arch.ShortName()) + ([LaneU8(l, BoolByte(r.persistent))] + FedAll(l, EpilogueFields(r.epilogue))))
  {
    FedAllAppend(l, GemmFront(r), [Chars(r.arch.ShortName())] + GemmBack(r));
    FedAllAppend(l, [Chars(r.arch.ShortName())], GemmBack(r));
    var arch := Chars(r.arch.ShortName());
    assert FedAll(l, [arch]) == Fed(l, arch) + [] == Fed(l, arch);
    assert GemmBack(r)[1..] == EpilogueFields(r.epilogue);
  }

  /** GEMM keys: the bytes fed to any one lane determine the request. */
  lemma GemmStreamInjective(l: Lane, a: GemmRequest, b: GemmRequest)
    requires Stream(l, GemmFields(a)) == Stream(l, GemmFields(b))
    ensures a == b
  {
    Widths();
    LittleEndianPeel(Seed(l), Seed(l), 8, FedAll(l, GemmFields(a)), FedAll(l, GemmFields(b)));
    GemmBytes(l, a);
    GemmBytes(l, b);
    GemmSlots(a, b);
    var (pa, pb) := (LaneU8(l, BoolByte(a.persistent)), LaneU8(l, BoolByte(b.persistent)));
    var (ea, eb) := (FedAll(l, EpilogueFields(a.epilogue)), FedAll(l, EpilogueFields(b.epilogue)));
    FrontPeel(l, GemmFront(a), GemmFront(b), Ascii(a.arch.ShortName()) + ([pa] + ea), Ascii(b.arch.ShortName()) + ([pb] + eb));
    ArchPeel(a.arch, b.arch, pa, pb, ea, eb);
    LaneU8Injective(l, BoolByte(a.persistent), BoolByte(b.persistent));
    EpiloguePeel(l, a.epilogue, b.epilogue);
  }

  lemma KindSlot(a: ConvKind, b: ConvKind)
    ensures SameSlot(Chars(a.ShortName()), Chars(b.ShortName())) && (a.ShortName() == b.ShortName() ==> a == b)
  {
    if a != b {
      AsciiDiverge(a.ShortName(), b.ShortName(), 0);
    }
  }

  lemma LayoutSlot(a: ConvLayout, b: ConvLayout)
    ensures SameSlot(Chars(a.ShortName()), Chars(b.ShortName())) && (a.ShortName() == b.ShortName() ==> a == b)
  {
    if a != b {
      AsciiDiverge(a.ShortName(), b.ShortName(), 1);
    }
  }

  lemma SlotsAppend(f1: seq<Field>, g1: seq<Field>, f2: seq<Field>, g2: seq<Field>)
    requires SameSlots(f1, g1) && SameSlots(f2, g2)
    ensures SameSlots(f1 + f2, g1 + g2)
    ensures f1 + f2 == g1 + g2 ==> f1 == g1 && f2 == g2
  {
    if f1 + f2 == g1 + g2 {
      assert f1 == (f1 + f2)[..|f1|] && g1 == (g1 + g2)[..|g1|];
      assert f2 == (f1 + f2)[|f1|..] && g2 == (g1 + g2)[|g1|..];
    }
  }

  lemma ShapeSlots(a: ConvShape, b: ConvShape)
    ensures SameSlots(Extents(a), Extents(b)) && SameSlots(Steps(a), Steps(b))
    ensures Extents(a) == Extents(b) && Steps(a) == Steps(b) ==> a == b
  {
    var (e, f, s, t) := (Extents(a), Extents(b), Steps(a), Steps(b));
    if e == f && s == t {
      assert e[0] == f[0] && e[1] == f[1] && e[2] == f[2] && e[3] == f[3] && e[4] == f[4] && e[5] == f[5] && e[6] == f[6];
      assert s[0] == t[0] && s[1] == t[1] && s[2] == t[2] && s[3] == t[3] && s[4] == t[4] && s[5] == t[5];
    }
  }

  lemma NameSlots(a: ConvRequest, b: ConvRequest)
    ensures SameSlots(ConvNames(a), ConvNames(b))
    ensures ConvNames(a) == ConvNames(b) ==>
      a.layout == b.layout && a.dtype == b.dtype && a.accum == b.accum && a.output == b.output
  {
    LayoutSlot(a.layout, b.layout);
    DtypeSlot(a.dtype, b.dtype);
    DtypeSlot(a.accum, b.accum);
    DtypeSlot(a.output, b.output);
    var (f, g) := (ConvNames(a), ConvNames(b));
    if f == g {
      assert f[0] == g[0] && f[1] == g[1] && f[2] == g[2] && f[3] == g[3];
    }
  }

  lemma ConvSlots(a: ConvRequest, b: ConvRequest)
    ensures SameSlots(ConvFront(a), ConvFront(b))
    ensures ConvFront(a) == ConvFront(b) ==> a == b.(arch := a.arch)
  {
    KindSlot(a.kind, b.kind);
    ShapeSlots(a.shape, b.shape);
    NameSlots(a, b);
    var (ka, kb) := ([Chars(a.kind.ShortName())], [Chars(b.kind.ShortName())]);
    SlotsAppend(ka, kb, Extents(a.shape), Extents(b.shape));
    SlotsAppend(ka + Extents(a.shape), kb + Extents(b.shape), Steps(a.shape), Steps(b.shape));
    SlotsAppend(ka + Extents(a.shape) + Steps(a.shape), kb + Extents(b.shape) + Steps(b.shape), ConvNames(a), ConvNames(b));
    assert ka == kb ==> ka[0] == kb[0];
  }

  /** Convolution keys: likewise. */
  lemma ConvStreamInjective(l: Lane, a: ConvRequest, b: ConvRequest)
    requires Stream(l, ConvFields(a)) == Stream(l, ConvFields(b))
    ensures a == b
  {
    Widths();
    LittleEndianPeel(Seed(l), Seed(l), 8, FedAll(l, ConvFields(a)), FedAll(l, ConvFields(b)));
    var (aa, ab) := (Chars(a.arch.ShortName()), Chars(b.arch.ShortName()));
    FedAllAppend(l, ConvFront(a), [aa]);
    FedAllAppend(l, ConvFront(b), [ab]);
    assert FedAll(l, [aa]) == Fed(l, aa) + [] == Fed(l, aa);
    assert FedAll(l, [ab]) == Fed(l, ab) + [] == Fed(l, ab);
    ConvSlots(a, b);
    FrontPeel(l, ConvFront(a), ConvFront(b), Fed(l, aa), Fed(l, ab));
    ArchEnd(a.arch, b.arch);
  }

  // ----- keys -----

  datatype Request = Gemm(gemm: GemmRequest) | Conv(conv: ConvRequest)

  /** `template_id` and the three lanes. */
  datatype Key = Key(templateId: byte, a: u64, b: u64, c: u64)

  type HashFn = seq<byte> -> u64

  function Fields(r: Request): seq<Field> {
    match r
    case Gemm(g) => GemmFields(g)
    case Conv(c) => ConvFields(c)
  }

  function KeyOf(hash: HashFn, r: Request): Key {
    var fs := Fields(r);
    Key(if r.Gemm? then 1 else 3, hash(Stream(A, fs)), hash(Stream(B, fs)), hash(Stream(C, fs)))
  }

  /** Two different requests share a key exactly if they are of one kind and the hash function collides on them
      in all three lanes at once. */
  lemma KeyClashNeedsThreeCollisions(hash: HashFn, x: Request, y: Request)
    ensures KeyOf(hash, x) == KeyOf(hash, y) <==>
            x == y || ((x.Gemm? <==> y.Gemm?) && forall l :: LaneCollides(hash, l, x, y))
  {
    if x != y && (x.Gemm? <==> y.Gemm?) {
      ClashInLane(hash, A, x, y);
      ClashInLane(hash, B, x, y);
      ClashInLane(hash, C, x, y);
      EveryLane(hash, x, y);
    }
  }

  lemma ClashInLane(hash: HashFn, l: Lane, x: Request, y: Request)
    requires x != y && (x.Gemm? <==> y.Gemm?)
    ensures LaneCollides(hash, l, x, y) <==> hash(Stream(l, Fields(x))) == hash(Stream(l, Fields(y)))
  {
    StreamsDiffer(l, x, y);
  }

  lemma EveryLane(hash: HashFn, x: Request, y: Request)
    ensures (forall l :: LaneCollides(hash, l, x, y)) <==>
            LaneCollides(hash, A, x, y) && LaneCollides(hash, B, x, y) && LaneCollides(hash, C, x, y)
  {
    if LaneCollides(hash, A, x, y) && LaneCollides(hash, B, x, y) && LaneCollides(hash, C, x, y) {
      forall l ensures LaneCollides(hash, l, x, y) {
        match l
        case A =>
        case B =>
        case C =>
      }
    }
  }

  /** Two streams collide in a lane: they differ and hash alike. */
  ghost predicate LaneCollides(hash: HashFn, l: Lane, x: Request, y: Request) {
    var (sx, sy) := (Stream(l, Fields(x)), Stream(l, Fields(y)));
    sx != sy && hash(sx) == hash(sy)
  }

  lemma StreamsDiffer(l: Lane, x: Request, y: Request)
    requires x != y && (x.Gemm? <==> y.Gemm?)
    ensures Stream(l, Fields(x)) != Stream(l, Fields(y))
  {
    if Stream(l, Fields(x)) == Stream(l, Fields(y)) {
      if x.Gemm? {
        GemmStreamInjective(l, x.gemm, y.gemm);
      } else {
        ConvStreamInjective(l, x.conv, y.conv);
      }
    }
  }

  lemma StreamSnoc(fs: seq<Field>, f: Field)
    ensures forall l :: Stream(l, fs + [f]) == Stream(l, fs) + Fed(l, f)
  {
    forall l ensures Stream(l, fs + [f]) == Stream(l, fs) + Fed(l, f) {
      FedAllAppend(l, fs, [f]);
      assert FedAll(l, [f]) == Fed(l, f) + [] == Fed(l, f);
      Assoc(LittleEndian(Seed(l), 8), FedAll(l, fs), Fed(l, f));
    }
  }

  /** The three-lane hasher, each lane shown as the bytes written to it so far. */
  class Hasher {
    var a: seq<byte>
    var b: seq<byte>
    var c: seq<byte>
    /** The calls made so far. */
    ghost var calls: seq<Field>

    ghost predicate Valid() reads this {
      a == Stream(A, calls) && b == Stream(B, calls) && c == Stream(C, calls)
    }

    constructor ()
      ensures Valid() && calls == []
    {
      a := LittleEndian(0xA5A5_A5A5_A5A5_A5A5, 8);
      b := LittleEndian(0x5A5A_5A5A_5A5A_5A5A, 8);
      c := LittleEndian(0xC3C3_C3C3_C3C3_C3C3, 8);
      calls := [];
    }

    method AddU8(v: byte)
      requires Valid()
      modifies this
      ensures Valid() && calls == old(calls) + [OneByte(v)]
    {
      StreamSnoc(calls, OneByte(v));
      calls := calls + [OneByte(v)];
      a := a + [v];
      b := b + [(v + 0x55) % 0x100];
      c := c + [(v + 0xAA) % 0x100];
    }

    method AddU32(v: u32)
      requires Valid()
      modifies this
      ensures Valid() && calls == old(calls) + [Word(v)]
    {
      StreamSnoc(calls, Word(v));
      calls := calls + [Word(v)];
      a := a + LittleEndian(v, 4);
      b := b + LittleEndian(LaneU32(B, v), 4);
      c := c + LittleEndian(LaneU32(C, v), 4);
    }

    method AddStr(s: string)
      requires Valid()
      modifies this
      ensures Valid() && calls == old(calls) + [Chars(s)]
    {
      StreamSnoc(calls, Chars(s));
      calls := calls + [Chars(s)];
      a := a + Ascii(s);
      b := b + Ascii(s);
      c := c + Ascii(s);
    }

    method Finish(hash: HashFn, templateId: byte) returns (key: Key)
      requires Valid()
      ensures key == Key(templateId, hash(Stream(A, calls)), hash(Stream(B, calls)), hash(Stream(C, calls)))
    {
      key := Key(templateId, hash(a), hash(b), hash(c));
    }
  }

  /** Three element types in a row. */
  method AddDtypes(h: Hasher, x: Dtype, y: Dtype, z: Dtype)
    requires h.Valid()
    modifies h
    ensures h.Valid()
    ensures h.calls == old(h.calls) + [Chars(x.ShortName()), Chars(y.ShortName()), Chars(z.ShortName())]
  {
    h.AddStr(x.ShortName());
    h.AddStr(y.ShortName());
    h.AddStr(z.ShortName());
  }

  method AddGemmShape(h: Hasher, r: GemmRequest)
    requires h.Valid()
    modifies h
    ensures h.Valid()
    ensures h.calls == old(h.calls) + [Word(r.m), Word(r.n), Word(r.k)]
  {
    h.AddU32(r.m);
    h.AddU32(r.n);
    h.AddU32(r.k);
  }

  method AddLayouts(h: Hasher, r: GemmRequest)
    requires h.Valid()
    modifies h
    ensures h.Valid()
    ensures h.calls == old(h.calls) + [OneByte(LayoutByte(r.layoutA)), OneByte(LayoutByte(r.layoutB)),
                                       OneByte(LayoutByte(r.layoutC))]
  {
    h.AddU8(LayoutByte(r.layoutA));
    h.AddU8(LayoutByte(r.layoutB));
    h.AddU8(LayoutByte(r.layoutC));
  }

  /** `PlanKey::gemm`. */
  method GemmKey(hash: HashFn, r: GemmRequest) returns (key: Key)
    ensures key == KeyOf(hash, Gemm(r))
  {
    var h := new Hasher();
    AddGemmShape(h, r);
    AddLayouts(h, r);
    AddDtypes(h, r.dtype, r.accum, r.output);
    assert h.calls == GemmFront(r);
    h.AddStr(r.arch.ShortName());
    AddGemmBack(h, r);
    Assoc(GemmFront(r), [Chars(r.arch.ShortName())], GemmBack(r));
    key := h.Finish(hash, 1);
  }

  method AddGemmBack(h: Hasher, r: GemmRequest)
    requires h.Valid()
    modifies h
    ensures h.Valid() && h.calls == old(h.calls) + GemmBack(r)
  {
    h.AddU8(BoolByte(r.persistent));
    h.AddStr(r.epilogue.kind.ShortName());
    h.AddU32(r.epilogue.alpha);
    h.AddU32(r.epilogue.beta);
  }

  method AddImage(h: Hasher, s: ConvShape)
    requires h.Valid()
    modifies h
    ensures h.Valid() && h.calls == old(h.calls) + [Word(s.n), Word(s.h), Word(s.w), Word(s.c)]
  {
    h.AddU32(s.n);
    h.AddU32(s.h);
    h.AddU32(s.w);
    h.AddU32(s.c);
  }

  method AddFilter(h: Hasher, s: ConvShape)
    requires h.Valid()
    modifies h
    ensures h.Valid() && h.calls == old(h.calls) + [Word(s.k), Word(s.r), Word(s.s)]
  {
    h.AddU32(s.k);
    h.AddU32(s.r);
    h.AddU32(s.s);
  }

  method AddExtents(h: Hasher, s: ConvShape)
    requires h.Valid()
    modifies h
    ensures h.Valid() && h.calls == old(h.calls) + Extents(s)
  {
    AddImage(h, s);
    AddFilter(h, s);
  }

  method AddSteps(h: Hasher, s: ConvShape)
    requires h.Valid()
    modifies h
    ensures h.Valid() && h.calls == old(h.calls) + Steps(s)
  {
    h.AddU32(s.padH);
    h.AddU32(s.padW);
    h.AddU32(s.strideH);
    assert h.calls == old(h.calls) + Steps(s)[..3];
    h.AddU32(s.strideW);
    h.AddU32(s.dilH);
    h.AddU32(s.dilW);
  }

  method AddConvNames(h: Hasher, r: ConvRequest)
    requires h.Valid()
    modifies h
    ensures h.Valid() && h.calls == old(h.calls) + ConvNames(r)
  {
    h.AddStr(r.layout.ShortName());
    AddDtypes(h, r.dtype, r.accum, r.output);
  }

  /** `PlanKey::conv`. */
  method ConvKey(hash: HashFn, r: ConvRequest) returns (key: Key)
    ensures key == KeyOf(hash, Conv(r))
  {
    var h := new Hasher();
    h.AddStr(r.kind.ShortName());
    assert h.calls == [Chars(r.kind.ShortName())];
    AddExtents(h, r.shape);
    AddSteps(h, r.shape);
    AddConvNames(h, r);
    h.AddStr(r.arch.ShortName());
    key := h.Finish(hash, 3);
  }
}
