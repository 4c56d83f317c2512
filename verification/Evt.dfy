/** Epilogue visitor trees: the nested template string and the bytes behind the tree id
    (crates/atomr-accel-cutlass/src/evt.rs). */
module Evt {
  import opened Wrappers
  import opened Bytes
  import opened Text
  import opened Cutlass

  datatype ReduceKind = Sum | Max | Min | Mean {
    function ShortName(): string {
      match this
      case Sum => "sum"
      case Max => "max"
      case Min => "min"
      case Mean => "mean"
    }

    function TemplateName(): string {
      match this
      case Sum => "sum"
      case Max => "maximum"
      case Min => "minimum"
      case Mean => "mean"
    }
  }

  /** `alpha` and `beta` are the bit patterns of the two `f32` factors. */
  datatype EpilogueOp =
    | LinearCombination(alpha: u32, beta: u32)
    | BiasAdd(dtype: Dtype)
    | Relu
    | Gelu
    | Silu
    | Tanh
    | Quantize(outDtype: Dtype, perChannel: bool)
    | ResidualAdd(resDtype: Dtype)
    | Reduce(kind: ReduceKind)

  // ----- rendering -----

  const FUSION := "cutlass::epilogue::fusion::Sm90"
  const LEAF := FUSION + "AccFetch"

  /** The template an op opens; `Compute` covers the binary plus and the activations. */
  datatype Template = Linear | Compute | PerChannel | PerTensor | Residual | Reduction

  function TemplateText(t: Template): string {
    match t
    case Linear => "LinearCombination<"
    case Compute => "Compute<cutlass::"
    case PerChannel => "PerChannelQuantize<"
    case PerTensor => "PerTensorQuantize<"
    case Residual => "Residual<"
    case Reduction => "Reduce<cutlass::reduce::"
  }

  datatype Functor = Plus | ReLuFn | GeluFn | SiLuFn | TanhFn

  function FunctorText(f: Functor): string {
    match f
    case Plus => "plus, "
    case ReLuFn => "epilogue::thread::ReLu, float, "
    case GeluFn => "epilogue::thread::GELU_taylor, float, "
    case SiLuFn => "epilogue::thread::SiLu, float, "
    case TanhFn => "epilogue::thread::Tanh, float, "
  }

  function KindText(k: ReduceKind): string {
    k.TemplateName()
  }

  function TemplateOf(op: EpilogueOp): Template {
    match op
    case LinearCombination(_, _) => Linear
    case Quantize(_, perChannel) => if perChannel then PerChannel else PerTensor
    case ResidualAdd(_) => Residual
    case Reduce(_) => Reduction
    case _ => Compute
  }

  /** The template arguments of `op` before the nested operand, followed by `prev`. */
  function Arguments(op: EpilogueOp, prev: string): string {
    match op
    case LinearCombination(_, _) => prev
    case BiasAdd(d) => FunctorText(Plus) + (TypeText(d) + (", " + prev))
    case Relu => FunctorText(ReLuFn) + prev
    case Gelu => FunctorText(GeluFn) + prev
    case Silu => FunctorText(SiLuFn) + prev
    case Tanh => FunctorText(TanhFn) + prev
    case Quantize(d, _) => TypeText(d) + (", " + prev)
    case ResidualAdd(d) => TypeText(d) + (", " + prev)
    case Reduce(k) => KindText(k) + (", float, " + prev)
  }

  /** `EpilogueOp::render`. */
  function RenderOp(op: EpilogueOp, prev: string): string {
    FUSION + (TemplateText(TemplateOf(op)) + Arguments(op, prev + ">"))
  }

  /** Wrap the ops around the innermost text, first op innermost. */
  function Fold<A>(step: (A, string) -> string, leaf: string, ops: seq<A>): string {
    if ops == [] then leaf else step(ops[|ops| - 1], Fold(step, leaf, ops[..|ops| - 1]))
  }

  function Render(ops: seq<EpilogueOp>): string {
    Fold(RenderOp, LEAF, ops)
  }

  method RenderTree(ops: seq<EpilogueOp>) returns (s: string)
    ensures s == Render(ops)
  {
    s := LEAF;
    for i := 0 to |ops|
      invariant s == Render(ops[..i])
    {
      assert ops[..i + 1][..i] == ops[..i];
      s := RenderOp(ops[i], s);
    }
    assert ops[..|ops|] == ops;
  }

  // ----- reading a rendered tree back -----

  const TEMPLATES: seq<Template> := [Linear, Compute, PerChannel, PerTensor, Residual, Reduction]
  const FUNCTORS: seq<Functor> := [Plus, ReLuFn, GeluFn, SiLuFn, TanhFn]
  const KINDS: seq<ReduceKind> := [Sum, Max, Min, Mean]

  /** A spelled value followed by fixed text. */
  function ReadThen<D>(all: seq<D>, name: D -> string, sep: string, s: string): Option<(D, string)> {
    match ReadName(all, name, s)
    case None => None
    case Some((d, rest)) =>
      match Strip(sep, rest)
      case None => None
      case Some(rest') => Some((d, rest'))
  }

  function ReadArguments(t: Template, s: string): Option<(EpilogueOp, string)> {
    match t
    case Linear => Some((LinearCombination(0, 0), s))
    case Compute =>
      (match ReadName(FUNCTORS, FunctorText, s)
       case None => None
       case Some((Plus, rest)) =>
         (match ReadThen(DTYPES, TypeText, ", ", rest)
          case None => None
          case Some((d, rest')) => Some((BiasAdd(d), rest')))
       case Some((ReLuFn, rest)) => Some((Relu, rest))
       case Some((GeluFn, rest)) => Some((Gelu, rest))
       case Some((SiLuFn, rest)) => Some((Silu, rest))
       case Some((TanhFn, rest)) => Some((Tanh, rest)))
    case Reduction =>
      (match ReadThen(KINDS, KindText, ", float, ", s)
       case None => None
       case Some((k, rest)) => Some((Reduce(k), rest)))
    case _ =>
      (match ReadThen(DTYPES, TypeText, ", ", s)
       case None => None
       case Some((d, rest)) =>
         Some((if t == Residual then ResidualAdd(d) else Quantize(d, t == PerChannel), rest)))
  }

  /** The outermost op, its scale factors unknown, and the text of its operand with the closing bracket. */
  function ReadOp(s: string): Option<(EpilogueOp, string)> {
    match Strip(FUSION, s)
    case None => None
    case Some(s1) =>
      match ReadName(TEMPLATES, TemplateText, s1)
      case None => None
      case Some((t, s2)) => ReadArguments(t, s2)
  }

  /** Take ops off the outside until the innermost text is left; each operand ends in a closing bracket. */
  function Unfold<A>(read: string -> Option<(A, string)>, leaf: string, s: string): Option<seq<A>>
    decreases |s|
  {
    if s == leaf then Some([])
    else match read(s)
      case None => None
      case Some((op, rest)) =>
        if rest == "" || rest[|rest| - 1] != '>' || |rest| > |s| then None
        else match Unfold(read, leaf, rest[..|rest| - 1])
          case None => None
          case Some(ops) => Some(ops + [op])
  }

  function Parse(s: string): Option<seq<EpilogueOp>> {
    Unfold(ReadOp, LEAF, s)
  }

  /** What the template string keeps of an op: everything but the two scale factors. */
  function Unscaled(op: EpilogueOp): EpilogueOp {
    if op.LinearCombination? then LinearCombination(0, 0) else op
  }

  function UnscaledAll(ops: seq<EpilogueOp>): seq<EpilogueOp> {
    Map(Unscaled, ops)
  }

  lemma TemplatesPrefixFree()
    ensures PrefixFree(TEMPLATES, TemplateText)
  {
    forall a: Template, b: Template | a != b ensures Diverge(TemplateText(a), TemplateText(b)) {
      var (x, y) := (TemplateText(a), TemplateText(b));
      assert x[0] != y[0] || x[2] != y[2] || x[3] != y[3];
    }
  }

  lemma FunctorsPrefixFree()
    ensures PrefixFree(FUNCTORS, FunctorText)
  {
    forall a: Functor, b: Functor | a != b ensures Diverge(FunctorText(a), FunctorText(b)) {
      var (x, y) := (FunctorText(a), FunctorText(b));
      assert x[0] != y[0] || (x[0] == 'e' && x[18] != y[18]);
    }
  }

  lemma KindsPrefixFree()
    ensures PrefixFree(KINDS, KindText)
  {
    forall a: ReduceKind, b: ReduceKind | a != b ensures Diverge(KindText(a), KindText(b)) {
      var (x, y) := (KindText(a), KindText(b));
      assert x[0] != y[0] || x[1] != y[1];
    }
  }

  lemma ReadThenBack<D(!new)>(all: seq<D>, name: D -> string, sep: string, d: D, rest: string)
    requires d in all && PrefixFree(all, name)
    ensures ReadThen(all, name, sep, name(d) + (sep + rest)) == Some((d, rest))
  {
    ReadBack(all, name, d, sep + rest);
    StripTag(sep, rest);
  }

  lemma AllListed(t: Template, f: Functor, k: ReduceKind)
    ensures t in TEMPLATES && f in FUNCTORS && k in KINDS
  {
    assert TEMPLATES[0] == Linear && TEMPLATES[1] == Compute && TEMPLATES[2] == PerChannel;
    assert TEMPLATES[3] == PerTensor && TEMPLATES[4] == Residual && TEMPLATES[5] == Reduction;
    assert FUNCTORS[0] == Plus && FUNCTORS[1] == ReLuFn && FUNCTORS[2] == GeluFn;
    assert FUNCTORS[3] == SiLuFn && FUNCTORS[4] == TanhFn;
    assert KINDS[0] == Sum && KINDS[1] == Max && KINDS[2] == Min && KINDS[3] == Mean;
  }

  lemma FunctorBack(f: Functor, rest: string)
    ensures ReadName(FUNCTORS, FunctorText, FunctorText(f) + rest) == Some((f, rest))
  {
    FunctorsPrefixFree();
    AllListed(Linear, f, Sum);
    ReadBack(FUNCTORS, FunctorText, f, rest);
  }

  lemma KindBack(k: ReduceKind, rest: string)
    ensures ReadThen(KINDS, KindText, ", float, ", KindText(k) + (", float, " + rest)) == Some((k, rest))
  {
    KindsPrefixFree();
    AllListed(Linear, Plus, k);
    ReadThenBack(KINDS, KindText, ", float, ", k, rest);
  }

  lemma ReadArgumentsBack(op: EpilogueOp, prev: string)
    ensures ReadArguments(TemplateOf(op), Arguments(op, prev)) == Some((Unscaled(op), prev))
  {
    match op
    case LinearCombination(_, _) =>
    case BiasAdd(d) => BiasBack(d, prev);
    case Relu => FunctorBack(ReLuFn, prev);
    case Gelu => FunctorBack(GeluFn, prev);
    case Silu => FunctorBack(SiLuFn, prev);
    case Tanh => FunctorBack(TanhFn, prev);
    case Quantize(d, _) => TypeBack(d, prev);
    case ResidualAdd(d) => TypeBack(d, prev);
    case Reduce(k) => KindBack(k, prev);
  }

  lemma BiasBack(d: Dtype, prev: string)
    ensures ReadArguments(Compute, Arguments(BiasAdd(d), prev)) == Some((BiasAdd(d), prev))
  {
    FunctorBack(Plus, TypeText(d) + (", " + prev));
    TypeBack(d, prev);
  }

  lemma TypeBack(d: Dtype, rest: string)
    ensures ReadThen(DTYPES, TypeText, ", ", TypeText(d) + (", " + rest)) == Some((d, rest))
  {
    AllDtypes(d);
    TypeNamesPrefixFree();
    ReadThenBack(DTYPES, TypeText, ", ", d, rest);
  }

  lemma ReadOpBack(op: EpilogueOp, prev: string)
    ensures ReadOp(RenderOp(op, prev)) == Some((Unscaled(op), prev + ">"))
  {
    var t := TemplateOf(op);
    StripTag(FUSION, TemplateText(t) + Arguments(op, prev + ">"));
    AllListed(t, Plus, Sum);
    TemplatesPrefixFree();
    ReadBack(TEMPLATES, TemplateText, t, Arguments(op, prev + ">"));
    ReadArgumentsBack(op, prev + ">");
  }

  /** A template that is opened differs from the bare accumulator right after the common prefix. */
  lemma RenderedIsNotLeaf(op: EpilogueOp, prev: string)
    ensures RenderOp(op, prev) != LEAF
  {
    var t := TemplateText(TemplateOf(op));
    assert RenderOp(op, prev)[|FUSION|] == t[0] != 'A';
    assert LEAF[|FUSION|] == 'A';
  }

  /** If every op is read back off the outside of its rendering, whole trees are read back. */
  lemma {:induction false} UnfoldFold<A(!new)>(step: (A, string) -> string, read: string -> Option<(A, string)>,
                                               keep: A -> A, leaf: string, ops: seq<A>)
    requires forall op, prev :: ReadsBack(step, read, keep, leaf, op, prev)
    ensures Unfold(read, leaf, Fold(step, leaf, ops)) == Some(Map(keep, ops))
  {
    if ops == [] {
      assert Map(keep, ops) == [];
    } else {
      var (before, op) := (ops[..|ops| - 1], ops[|ops| - 1]);
      var prev := Fold(step, leaf, before);
      UnfoldFold(step, read, keep, leaf, before);
      assert ReadsBack(step, read, keep, leaf, op, prev);
      assert (prev + ">")[..|prev|] == prev;
      assert Map(keep, ops) == Map(keep, before) + [keep(op)];
    }
  }

  ghost predicate ReadsBack<A>(step: (A, string) -> string, read: string -> Option<(A, string)>, keep: A -> A,
                               leaf: string, op: A, prev: string) {
    var s := step(op, prev);
    s != leaf && |prev| < |s| && read(s) == Some((keep(op), prev + ">"))
  }

  lemma {:induction false} FoldKeeps<A(!new)>(step: (A, string) -> string, keep: A -> A, leaf: string, ops: seq<A>)
    requires forall op, prev :: step(op, prev) == step(keep(op), prev)
    ensures Fold(step, leaf, Map(keep, ops)) == Fold(step, leaf, ops)
  {
    if ops != [] {
      var before := ops[..|ops| - 1];
      FoldKeeps(step, keep, leaf, before);
      assert Map(keep, ops)[..|ops| - 1] == Map(keep, before);
    }
  }

  lemma RenderGrows(op: EpilogueOp, prev: string)
    ensures |prev| < |RenderOp(op, prev)|
  {}

  /** Rendering is invertible: from the template string of any tree the parser recovers its ops, in order,
      up to the scale factors. */
  lemma RenderParsesBack(ops: seq<EpilogueOp>)
    ensures Parse(Render(ops)) == Some(UnscaledAll(ops))
  {
    forall op, prev ensures ReadsBack(RenderOp, ReadOp, Unscaled, LEAF, op, prev) {
      ReadOpBack(op, prev);
      RenderedIsNotLeaf(op, prev);
      RenderGrows(op, prev);
    }
    UnfoldFold(RenderOp, ReadOp, Unscaled, LEAF, ops);
  }

  lemma RenderOpIgnoresScale(op: EpilogueOp, prev: string)
    ensures RenderOp(op, prev) == RenderOp(Unscaled(op), prev)
  {}

  lemma RenderIgnoresScale(ops: seq<EpilogueOp>)
    ensures Render(ops) == Render(UnscaledAll(ops))
  {
    forall op, prev ensures RenderOp(op, prev) == RenderOp(Unscaled(op), prev) {
      RenderOpIgnoresScale(op, prev);
    }
    FoldKeeps(RenderOp, Unscaled, LEAF, ops);
  }

  /** Two trees render alike exactly if they agree up to scale factors. */
  lemma RendersEqualIff(a: seq<EpilogueOp>, b: seq<EpilogueOp>)
    ensures Render(a) == Render(b) <==> UnscaledAll(a) == UnscaledAll(b)
  {
    RenderParsesBack(a);
    RenderParsesBack(b);
    RenderIgnoresScale(a);
    RenderIgnoresScale(b);
  }

  // ----- templates spelt out -----

  lemma KnownLeaf()
    ensures Render([]) == "cutlass::epilogue::fusion::Sm90" + "AccFetch"
  {}

  /** Each activation names its own functor. */
  lemma ReluText(prev: string)
    ensures RenderOp(Relu, prev) ==
            "cutlass::epilogue::fusion::Sm90" + ("Compute<cutlass::" + ("epilogue::thread::ReLu, float, " + (prev + ">")))
  {}

  lemma GeluText(prev: string)
    ensures RenderOp(Gelu, prev) ==
            "cutlass::epilogue::fusion::Sm90" +
            ("Compute<cutlass::" + ("epilogue::thread::GELU_taylor, float, " + (prev + ">")))
  {}

  lemma SiluText(prev: string)
    ensures RenderOp(Silu, prev) ==
            "cutlass::epilogue::fusion::Sm90" + ("Compute<cutlass::" + ("epilogue::thread::SiLu, float, " + (prev + ">")))
  {}

  lemma TanhText(prev: string)
    ensures RenderOp(Tanh, prev) ==
            "cutlass::epilogue::fusion::Sm90" + ("Compute<cutlass::" + ("epilogue::thread::Tanh, float, " + (prev + ">")))
  {}

  lemma LinearText(alpha: u32, beta: u32, prev: string)
    ensures RenderOp(LinearCombination(alpha, beta), prev) ==
            "cutlass::epilogue::fusion::Sm90" + ("LinearCombination<" + (prev + ">"))
  {}

  /** An element type and its C++ spelling. */
  ghost predicate IsSpelling(d: Dtype, text: string) {
    match d
    case F32 => text == "float"
    case F64 => text == "double"
    case F16 => text == "cutlass::half_t"
    case Bf16 => text == "cutlass::bfloat16_t"
    case F8E4m3 => text == "cutlass::float_e4m3_t"
    case F8E5m2 => text == "cutlass::float_e5m2_t"
    case F4E2m1 => text == "cutlass::float_e2m1_t"
    case I8 => text == "int8_t"
    case I32 => text == "int32_t"
    case U8 => text == "uint8_t"
  }

  lemma SpellingIsTypeText(d: Dtype, text: string)
    requires IsSpelling(d, text)
    ensures TypeText(d) == text
  {
    match d
    case _ =>
  }

  /** The ops with an element type. */
  lemma BiasText(d: Dtype, text: string, prev: string)
    requires IsSpelling(d, text)
    ensures RenderOp(BiasAdd(d), prev) ==
            "cutlass::epilogue::fusion::Sm90" + ("Compute<cutlass::" + ("plus, " + (text + (", " + (prev + ">")))))
  {
    SpellingIsTypeText(d, text);
  }

  lemma PerChannelText(d: Dtype, text: string, prev: string)
    requires IsSpelling(d, text)
    ensures RenderOp(Quantize(d, true), prev) ==
            "cutlass::epilogue::fusion::Sm90" + ("PerChannelQuantize<" + (text + (", " + (prev + ">"))))
  {
    SpellingIsTypeText(d, text);
  }

  lemma PerTensorText(d: Dtype, text: string, prev: string)
    requires IsSpelling(d, text)
    ensures RenderOp(Quantize(d, false), prev) ==
            "cutlass::epilogue::fusion::Sm90" + ("PerTensorQuantize<" + (text + (", " + (prev + ">"))))
  {
    SpellingIsTypeText(d, text);
  }

  lemma ResidualText(d: Dtype, text: string, prev: string)
    requires IsSpelling(d, text)
    ensures RenderOp(ResidualAdd(d), prev) ==
            "cutlass::epilogue::fusion::Sm90" + ("Residual<" + (text + (", " + (prev + ">"))))
  {
    SpellingIsTypeText(d, text);
  }

  /** The reductions; two of them are spelt differently from their short names. */
  lemma ReductionTexts(kind: ReduceKind, text: string, prev: string)
    requires match kind case Sum => text == "sum" case Max => text == "maximum"
                        case Min => text == "minimum" case Mean => text == "mean"
    ensures RenderOp(Reduce(kind), prev) ==
            "cutlass::epilogue::fusion::Sm90" + ("Reduce<cutlass::reduce::" + (text + (", float, " + (prev + ">"))))
  {
    assert KindText(kind) == text;
  }

  // ----- the tree id -----

  datatype OpName = LinearName | BiasName | ReluName | GeluName | SiluName | TanhName | QuantName | ResidualName | ReduceName

  const OP_NAMES: seq<OpName> :=
    [LinearName, BiasName, ReluName, GeluName, SiluName, TanhName, QuantName, ResidualName, ReduceName]

  function ShortName(n: OpName): string {
    match n
    case LinearName => "linear"
    case BiasName => "bias_add"
    case ReluName => "relu"
    case GeluName => "gelu"
    case SiluName => "silu"
    case TanhName => "tanh"
    case QuantName => "quantize"
    case ResidualName => "residual_add"
    case ReduceName => "reduce"
  }

  function NameOf(op: EpilogueOp): OpName {
    match op
    case LinearCombination(_, _) => LinearName
    case BiasAdd(_) => BiasName
    case Relu => ReluName
    case Gelu => GeluName
    case Silu => SiluName
    case Tanh => TanhName
    case Quantize(_, _) => QuantName
    case ResidualAdd(_) => ResidualName
    case Reduce(_) => ReduceName
  }

  /** `str::hash` writes the bytes and a 0xff. */
  function HashedName(n: OpName): seq<byte> {
    Ascii(ShortName(n)) + [0xff]
  }

  function HashedKind(k: ReduceKind): seq<byte> {
    Ascii(k.ShortName()) + [0xff]
  }

  /** What follows the name of an op in the stream. */
  function HashedFields(op: EpilogueOp): seq<byte> {
    match op
    case BiasAdd(d) => ShortBytes(d) + [0xff]
    case ResidualAdd(d) => ShortBytes(d) + [0xff]
    case Quantize(d, _) => ShortBytes(d) + [0xff]
    case Reduce(k) => HashedKind(k)
    case LinearCombination(alpha, beta) => LittleEndian(alpha, 4) + LittleEndian(beta, 4)
    case _ => []
  }

  function HashedOp(op: EpilogueOp): seq<byte> {
    HashedName(NameOf(op)) + HashedFields(op)
  }

  /** The bytes fed to the hasher by `id`. */
  function IdStream(ops: seq<EpilogueOp>): seq<byte> {
    Concat(HashedOp, ops)
  }

  method FeedId(ops: seq<EpilogueOp>) returns (stream: seq<byte>)
    ensures stream == IdStream(ops)
  {
    stream := [];
    assert ops[0..] == ops && [] + IdStream(ops) == IdStream(ops);
    for i := 0 to |ops|
      invariant IdStream(ops) == stream + IdStream(ops[i..])
    {
      var op := ops[i];
      var rest := ops[i..];
      assert rest[0] == op && rest[1..] == ops[i + 1..];
      Assoc(stream, HashedOp(op), IdStream(ops[i + 1..]));
      Assoc(stream, HashedName(NameOf(op)), HashedFields(op));
      stream := stream + HashedName(NameOf(op));
      stream := stream + HashedFields(op);
    }
    assert IdStream(ops[|ops|..]) == [];
  }

  /** The names in the stream, spelt out: `str::hash` ends each with a 0xff. */
  lemma KnownIdNames(d: Dtype, alpha: u32, beta: u32)
    ensures HashedOp(Relu) == Ascii("relu") + [0xff] && HashedOp(Gelu) == Ascii("gelu") + [0xff]
    ensures HashedOp(Silu) == Ascii("silu") + [0xff] && HashedOp(Tanh) == Ascii("tanh") + [0xff]
    ensures HashedOp(LinearCombination(alpha, beta)) ==
            (Ascii("linear") + [0xff]) + (LittleEndian(alpha, 4) + LittleEndian(beta, 4))
    ensures HashedOp(BiasAdd(d)) == (Ascii("bias_add") + [0xff]) + (Ascii(d.ShortName()) + [0xff])
    ensures HashedOp(ResidualAdd(d)) == (Ascii("residual_add") + [0xff]) + (Ascii(d.ShortName()) + [0xff])
    ensures HashedOp(Quantize(d, true)) == (Ascii("quantize") + [0xff]) + (Ascii(d.ShortName()) + [0xff])
  {}

  lemma KnownIdReductions()
    ensures HashedOp(Reduce(Sum)) == (Ascii("reduce") + [0xff]) + (Ascii("sum") + [0xff])
    ensures HashedOp(Reduce(Max)) == (Ascii("reduce") + [0xff]) + (Ascii("max") + [0xff])
    ensures HashedOp(Reduce(Min)) == (Ascii("reduce") + [0xff]) + (Ascii("min") + [0xff])
    ensures HashedOp(Reduce(Mean)) == (Ascii("reduce") + [0xff]) + (Ascii("mean") + [0xff])
  {}

  /** What the id keeps of an op: everything but the `per_channel` flag of a quantize. */
  function Unscoped(op: EpilogueOp): EpilogueOp {
    if op.Quantize? then Quantize(op.outDtype, false) else op
  }

  function UnscopedAll(ops: seq<EpilogueOp>): seq<EpilogueOp> {
    Map(Unscoped, ops)
  }

  lemma NamesPrefixFree()
    ensures PrefixFree(OP_NAMES, HashedName)
  {
    forall a: OpName, b: OpName | a != b ensures Diverge(HashedName(a), HashedName(b)) {
      var (x, y) := (ShortName(a), ShortName(b));
      if x[0] != y[0] {
        NamesDiverge(a, b, 0);
      } else {
        NamesDiverge(a, b, 2);
      }
    }
  }

  lemma NamesDiverge(a: OpName, b: OpName, p: nat)
    requires p < |ShortName(a)| && p < |ShortName(b)| && ShortName(a)[p] != ShortName(b)[p]
    requires (ShortName(a)[p] as int) < 128 && (ShortName(b)[p] as int) < 128
    ensures Diverge(HashedName(a), HashedName(b))
  {
    AsciiDiverge(ShortName(a), ShortName(b), p);
    DivergeMore(Ascii(ShortName(a)), Ascii(ShortName(b)), [0xff], [0xff]);
  }

  lemma DivergeMore<T>(a: seq<T>, b: seq<T>, x: seq<T>, y: seq<T>)
    requires Diverge(a, b)
    ensures Diverge(a + x, b + y)
  {
    var p :| 0 <= p < |a| && p < |b| && a[p] != b[p];
    assert (a + x)[p] != (b + y)[p];
  }

  lemma HashedKindsPrefixFree()
    ensures PrefixFree(KINDS, HashedKind)
  {
    forall a: ReduceKind, b: ReduceKind | a != b ensures Diverge(HashedKind(a), HashedKind(b)) {
      var p := KindNamesDiffer(a, b);
      AsciiDiverge(a.ShortName(), b.ShortName(), p);
      DivergeMore(Ascii(a.ShortName()), Ascii(b.ShortName()), [0xff], [0xff]);
    }
  }

  lemma KindNamesDiffer(a: ReduceKind, b: ReduceKind) returns (p: nat)
    requires a != b
    ensures p < |a.ShortName()| && p < |b.ShortName()| && a.ShortName()[p] != b.ShortName()[p]
    ensures (a.ShortName()[p] as int) < 128 && (b.ShortName()[p] as int) < 128
  {
    p := if a.ShortName()[0] != b.ShortName()[0] then 0 else 1;
  }

  lemma AllNames(n: OpName)
    ensures n in OP_NAMES
  {
    assert OP_NAMES[0] == LinearName && OP_NAMES[1] == BiasName && OP_NAMES[2] == ReluName;
    assert OP_NAMES[3] == GeluName && OP_NAMES[4] == SiluName && OP_NAMES[5] == TanhName;
    assert OP_NAMES[6] == QuantName && OP_NAMES[7] == ResidualName && OP_NAMES[8] == ReduceName;
  }

  lemma DtypePeel(a: Dtype, b: Dtype, ra: seq<byte>, rb: seq<byte>)
    requires (ShortBytes(a) + [0xff]) + ra == (ShortBytes(b) + [0xff]) + rb
    ensures a == b && ra == rb
  {
    ShortNamesPrefixFree();
    AllDtypes(a);
    AllDtypes(b);
    Assoc(ShortBytes(a), [0xff], ra);
    Assoc(ShortBytes(b), [0xff], rb);
    NamePeel(DTYPES, ShortBytes, a, b, [0xff] + ra, [0xff] + rb);
    assert ([0xff] + ra)[1..] == ra && ([0xff] + rb)[1..] == rb;
  }

  lemma FieldsPeel(a: EpilogueOp, b: EpilogueOp, ra: seq<byte>, rb: seq<byte>)
    requires NameOf(a) == NameOf(b) && HashedFields(a) + ra == HashedFields(b) + rb
    ensures Unscoped(a) == Unscoped(b) && ra == rb
  {
    match a
    case LinearCombination(alpha, beta) => ScalePeel(alpha, beta, b.alpha, b.beta, ra, rb);
    case BiasAdd(d) => DtypePeel(d, b.dtype, ra, rb);
    case ResidualAdd(d) => DtypePeel(d, b.resDtype, ra, rb);
    case Quantize(d, _) => DtypePeel(d, b.outDtype, ra, rb);
    case Reduce(k) =>
      HashedKindsPrefixFree();
      AllListed(Linear, Plus, k);
      AllListed(Linear, Plus, b.kind);
      NamePeel(KINDS, HashedKind, k, b.kind, ra, rb);
    case _ =>
      assert [] + ra == ra && [] + rb == rb;
  }

  lemma ScalePeel(a1: u32, b1: u32, a2: u32, b2: u32, ra: seq<byte>, rb: seq<byte>)
    requires (LittleEndian(a1, 4) + LittleEndian(b1, 4)) + ra == (LittleEndian(a2, 4) + LittleEndian(b2, 4)) + rb
    ensures a1 == a2 && b1 == b2 && ra == rb
  {
    Widths();
    var (la, lb) := (LittleEndian(a1, 4), LittleEndian(a2, 4));
    Assoc(la, LittleEndian(b1, 4), ra);
    Assoc(lb, LittleEndian(b2, 4), rb);
    LittleEndianPeel(a1, a2, 4, LittleEndian(b1, 4) + ra, LittleEndian(b2, 4) + rb);
    LittleEndianPeel(b1, b2, 4, ra, rb);
  }

  lemma OpPeel(a: EpilogueOp, b: EpilogueOp, ra: seq<byte>, rb: seq<byte>)
    requires HashedOp(a) + ra == HashedOp(b) + rb
    ensures Unscoped(a) == Unscoped(b) && ra == rb
  {
    Assoc(HashedName(NameOf(a)), HashedFields(a), ra);
    Assoc(HashedName(NameOf(b)), HashedFields(b), rb);
    NamesPrefixFree();
    AllNames(NameOf(a));
    AllNames(NameOf(b));
    NamePeel(OP_NAMES, HashedName, NameOf(a), NameOf(b), HashedFields(a) + ra, HashedFields(b) + rb);
    FieldsPeel(a, b, ra, rb);
  }

  /** The bytes behind the id determine the ops up to the flag that the code leaves out. */
  lemma IdStreamInjective(a: seq<EpilogueOp>, b: seq<EpilogueOp>)
    requires IdStream(a) == IdStream(b)
    ensures UnscopedAll(a) == UnscopedAll(b)
  {
    forall x, y, rx, ry ensures Peels(HashedOp, Unscoped, x, y, rx, ry) {
      if HashedOp(x) + rx == HashedOp(y) + ry {
        OpPeel(x, y, rx, ry);
      }
    }
    forall x ensures HashedOp(x) != [] {
      HashedOpNonEmpty(x);
    }
    ConcatInjective(HashedOp, Unscoped, a, b);
  }

  lemma HashedOpNonEmpty(op: EpilogueOp)
    ensures HashedOp(op) != []
  {}

  lemma FieldsIgnoreScope(op: EpilogueOp)
    ensures HashedOp(Unscoped(op)) == HashedOp(op)
  {}

  lemma IdIgnoresScope(ops: seq<EpilogueOp>)
    ensures IdStream(ops) == IdStream(UnscopedAll(ops))
  {
    forall x ensures HashedOp(Unscoped(x)) == HashedOp(x) {
      FieldsIgnoreScope(x);
    }
    ConcatIgnores(HashedOp, Unscoped, ops);
  }

  lemma IdStreamsEqualIff(a: seq<EpilogueOp>, b: seq<EpilogueOp>)
    ensures IdStream(a) == IdStream(b) <==> UnscopedAll(a) == UnscopedAll(b)
  {
    IdIgnoresScope(a);
    IdIgnoresScope(b);
    if IdStream(a) == IdStream(b) {
      IdStreamInjective(a, b);
    }
  }

  /** Where a shared id is safe: two trees with the same id bytes render to the same template exactly if
      their quantize ops agree on the flag that the id leaves out. */
  lemma SameIdSameRenderIff(a: seq<EpilogueOp>, b: seq<EpilogueOp>)
    requires IdStream(a) == IdStream(b)
    ensures |a| == |b| && (Render(a) == Render(b) <==> ScopesAgree(a, b))
  {
    IdStreamsEqualIff(a, b);
    RendersEqualIff(a, b);
    assert |a| == |UnscopedAll(a)| == |UnscopedAll(b)| == |b|;
    forall i | 0 <= i < |a| ensures Unscoped(a[i]) == Unscoped(b[i]) {
      assert UnscopedAll(a)[i] == UnscopedAll(b)[i];
    }
    UnscaledEqualIff(a, b);
  }

  ghost predicate ScopesAgree(a: seq<EpilogueOp>, b: seq<EpilogueOp>)
    requires |a| == |b|
  {
    forall i :: 0 <= i < |a| && a[i].Quantize? && b[i].Quantize? ==> a[i].perChannel == b[i].perChannel
  }

  lemma UnscaledEqualIff(a: seq<EpilogueOp>, b: seq<EpilogueOp>)
    requires |a| == |b| && forall i :: 0 <= i < |a| ==> Unscoped(a[i]) == Unscoped(b[i])
    ensures UnscaledAll(a) == UnscaledAll(b) <==> ScopesAgree(a, b)
  {
    if UnscaledAll(a) == UnscaledAll(b) {
      forall i | 0 <= i < |a| ensures Unscaled(a[i]) == Unscaled(b[i]) {
        assert UnscaledAll(a)[i] == UnscaledAll(b)[i];
      }
    }
  }

  /** The clash is real for every element type: per-channel and per-tensor quantization share an id. */
  lemma QuantizeScopeClashes(d: Dtype)
    ensures var (a, b) := ([Quantize(d, true)], [Quantize(d, false)]);
            IdStream(a) == IdStream(b) && Render(a) != Render(b)
  {
    ScopeClash([Quantize(d, true)], [Quantize(d, false)]);
  }

  lemma ScopeClash(a: seq<EpilogueOp>, b: seq<EpilogueOp>)
    requires |a| == |b| == 1 && a[0].Quantize? && b[0].Quantize?
    requires a[0].outDtype == b[0].outDtype && a[0].perChannel != b[0].perChannel
    ensures IdStream(a) == IdStream(b) && Render(a) != Render(b)
  {
    assert UnscopedAll(a) == [Unscoped(a[0])] && UnscopedAll(b) == [Unscoped(b[0])];
    IdStreamsEqualIff(a, b);
    SameIdSameRenderIff(a, b);
  }
}
