/** CUTLASS element types and architectures with their spellings
    (crates/atomr-accel-cutlass/src/dtype.rs). */
module Cutlass {
  import opened Wrappers
  import opened Bytes
  import opened Text

  datatype Dtype = F32 | F64 | F16 | Bf16 | F8E4m3 | F8E5m2 | F4E2m1 | I8 | I32 | U8 {

    /** The C++ spelling. */
    function TypeName(): string {
      match this
      case F32 => "float"
      case F64 => "double"
      case F16 => "cutlass::half_t"
      case Bf16 => "cutlass::bfloat16_t"
      case F8E4m3 => "cutlass::float_e4m3_t"
      case F8E5m2 => "cutlass::float_e5m2_t"
      case F4E2m1 => "cutlass::float_e2m1_t"
      case I8 => "int8_t"
      case I32 => "int32_t"
      case U8 => "uint8_t"
    }

    /** The spelling used in keys. */
    function ShortName(): string {
      match this
      case F32 => "f32"
      case F64 => "f64"
      case F16 => "f16"
      case Bf16 => "bf16"
      case F8E4m3 => "f8e4m3"
      case F8E5m2 => "f8e5m2"
      case F4E2m1 => "f4e2m1"
      case I8 => "i8"
      case I32 => "i32"
      case U8 => "u8"
    }
  }

  datatype SmArch = Sm80 | Sm86 | Sm89 | Sm90 | Sm90a | Sm100 | Sm120 {
    function ShortName(): string {
      match this
      case Sm80 => "sm_80"
      case Sm86 => "sm_86"
      case Sm89 => "sm_89"
      case Sm90 => "sm_90"
      case Sm90a => "sm_90a"
      case Sm100 => "sm_100"
      case Sm120 => "sm_120"
    }
  }

  const DTYPES: seq<Dtype> := [F32, F64, F16, Bf16, F8E4m3, F8E5m2, F4E2m1, I8, I32, U8]

  lemma AllDtypes(d: Dtype)
    ensures d in DTYPES
  {
    match d
    case F32 => assert d == DTYPES[0];
    case F64 => assert d == DTYPES[1];
    case F16 => assert d == DTYPES[2];
    case Bf16 => assert d == DTYPES[3];
    case F8E4m3 => assert d == DTYPES[4];
    case F8E5m2 => assert d == DTYPES[5];
    case F4E2m1 => assert d == DTYPES[6];
    case I8 => assert d == DTYPES[7];
    case I32 => assert d == DTYPES[8];
    case U8 => assert d == DTYPES[9];
  }

  function TypeText(d: Dtype): string {
    d.TypeName()
  }

  function ShortBytes(d: Dtype): seq<byte> {
    Ascii(d.ShortName())
  }

  lemma AsciiDiverge(a: string, b: string, p: nat)
    requires p < |a| && p < |b| && (a[p] as int) < 128 && (b[p] as int) < 128 && a[p] != b[p]
    ensures Diverge(Ascii(a), Ascii(b))
  {
    assert Ascii(a)[p] != Ascii(b)[p];
  }

  /** No C++ spelling is a prefix of another. */
  lemma TypeNamesPrefixFree()
    ensures PrefixFree(DTYPES, TypeText)
  {
    forall a: Dtype, b: Dtype | a != b ensures Diverge(TypeText(a), TypeText(b)) {
      var (x, y) := (a.TypeName(), b.TypeName());
      assert x[0] != y[0] || x[3] != y[3] || (x[0] == 'c' && (x[9] != y[9] || x[16] != y[16]));
    }
  }

  /** No short name is a prefix of another, although none is terminated in a key. */
  lemma ShortNamesPrefixFree()
    ensures PrefixFree(DTYPES, ShortBytes)
  {
    forall a: Dtype, b: Dtype | a != b ensures Diverge(ShortBytes(a), ShortBytes(b)) {
      var p := ShortNamesDiffer(a, b);
      AsciiDiverge(a.ShortName(), b.ShortName(), p);
    }
  }

  /** Two short names differ in their first or second character, or both say "f8e" and differ after that. */
  lemma ShortNamesDiffer(a: Dtype, b: Dtype) returns (p: nat)
    requires a != b
    ensures p < |a.ShortName()| && p < |b.ShortName()| && a.ShortName()[p] != b.ShortName()[p]
    ensures (a.ShortName()[p] as int) < 128 && (b.ShortName()[p] as int) < 128
  {
    p := if a.ShortName()[0] != b.ShortName()[0] then 0 else if a.ShortName()[1] != b.ShortName()[1] then 1 else 3;
  }
}
