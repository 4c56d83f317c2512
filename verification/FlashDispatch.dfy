/** FlashAttention dispatch keys, the mangled kernel names and the prebuilt table
    (crates/atomr-accel-flashattn/src/dispatch.rs). */
module FlashDispatch {
  import opened Wrappers
  import opened Text
  import opened Bytes

  datatype SmArch = Sm80 | Sm89 | Sm90a | Sm100 {
    predicate SupportsFa3() { Sm90a? || Sm100? }
    predicate SupportsFp8() { Sm90a? || Sm100? }
  }

  datatype DType = F16 | Bf16 | F8E4m3 | F8E5m2 {
    predicate IsFp8() { F8E4m3? || F8E5m2? }

    function Tag(): string {
      match this
      case F16 => "f16"
      case Bf16 => "bf16"
      case F8E4m3 => "e4m3"
      case F8E5m2 => "e5m2"
    }
  }

  datatype DispatchKey = DispatchKey(
    arch: SmArch,
    dtype: DType,
    headDim: u32,
    causal: bool,
    varlen: bool,
    slidingWindow: Option<u32>,
    alibi: bool,
    sink: u32,
    paged: bool,
    gqaRatio: u32)

  datatype DispatchError =
    | UnsupportedHeadDim(headDim: u32)
    | Fp8RequiresHopper(arch: SmArch)
    | Fp8BackwardUnsupported
    | SinkWithoutMask
    | InvalidGqaRatio(ratio: u32)
    | ZeroWindow
    | PagedFlagNotSet
    | UnknownKey(key: DispatchKey)

  const ALLOWED: seq<u32> := [64, 80, 96, 128, 192, 256]

  function ValidateFwd(k: DispatchKey): Result<(), DispatchError> {
    if k.headDim !in ALLOWED then Err(UnsupportedHeadDim(k.headDim))
    else if k.dtype.IsFp8() && !k.arch.SupportsFp8() then Err(Fp8RequiresHopper(k.arch))
    else if k.sink > 0 && k.slidingWindow.None? && !k.causal then Err(SinkWithoutMask)
    else if k.gqaRatio == 0 then Err(InvalidGqaRatio(k.gqaRatio))
    else if k.slidingWindow == Some(0) then Err(ZeroWindow)
    else Ok(())
  }

  function ValidateBwd(k: DispatchKey): Result<(), DispatchError> {
    match ValidateFwd(k)
    case Err(e) => Err(e)
    case Ok(_) => if k.dtype.IsFp8() then Err(Fp8BackwardUnsupported) else Ok(())
  }

  function ValidatePaged(k: DispatchKey): Result<(), DispatchError> {
    match ValidateFwd(k)
    case Err(e) => Err(e)
    case Ok(_) => if !k.paged then Err(PagedFlagNotSet) else Ok(())
  }

  // ----- the mangled name -----

  function KindName(fa3: bool): string {
    if fa3 then "fa3" else "fa2"
  }

  function CausalTag(causal: bool): string {
    if causal then "causal" else "full"
  }

  /** An optional suffix: a flag, or a number that is printed when present. */
  datatype Piece = Flag(on: bool) | Number(shown: Option<nat>)

  const TAGS: seq<string> := ["_varlen", "_sw", "_alibi", "_sink", "_paged", "_gqa"]

  function Pieces(k: DispatchKey): seq<Piece> {
    [Flag(k.varlen), Number(k.slidingWindow), Flag(k.alibi),
     Number(if k.sink > 0 then Some(k.sink) else None), Flag(k.paged),
     Number(if k.gqaRatio > 1 then Some(k.gqaRatio) else None)]
  }

  function ShowPiece(tag: string, p: Piece): string {
    match p
    case Flag(on) => if on then tag else ""
    case Number(Some(n)) => tag + Decimal(n)
    case Number(None) => ""
  }

  function Show(tags: seq<string>, ps: seq<Piece>): string
    requires |tags| == |ps|
  {
    if ps == [] then "" else ShowPiece(tags[0], ps[0]) + Show(tags[1..], ps[1..])
  }

  /** Everything up to the closing bracket, followed by `rest`. */
  function Base(k: DispatchKey, rest: string): string {
    "atomr_flashattn::" + (KindName(k.arch.SupportsFa3()) + ("::fwd<" + (k.dtype.Tag() + (", " + (
    Decimal(k.headDim) + (", " + (CausalTag(k.causal) + (">" + rest))))))))
  }

  function KernelName(k: DispatchKey): string {
    Base(k, Show(TAGS, Pieces(k)))
  }

  // ----- names spelt out -----

  lemma KnownNumbers()
    ensures Decimal(4) == "4" && Decimal(8) == "8" && Decimal(64) == "64" && Decimal(80) == "80"
    ensures Decimal(128) == "128" && Decimal(256) == "256" && Decimal(4096) == "4096"
  {
    assert Decimal(6) == "6" && Decimal(12) == "12" && Decimal(25) == "25";
    assert Decimal(40) == "40" && Decimal(409) == "409";
  }

  /** Plain keys of both older architectures, with both masks. */
  lemma KnownFa2Names()
    ensures KernelName(PlainCell(Sm80, F16, 64, false)) ==
            "atomr_flashattn::" + ("fa2" + ("::fwd<" + ("f16" + (", " + ("64" + (", " + ("full" + ">")))))))
    ensures KernelName(PlainCell(Sm89, Bf16, 128, true)) ==
            "atomr_flashattn::" + ("fa2" + ("::fwd<" + ("bf16" + (", " + ("128" + (", " + ("causal" + ">")))))))
  {
    KnownNumbers();
    PlainName(PlainCell(Sm80, F16, 64, false));
    PlainName(PlainCell(Sm89, Bf16, 128, true));
  }

  /** And of both newer ones. */
  lemma KnownFa3Names()
    ensures KernelName(PlainCell(Sm90a, F8E4m3, 256, false)) ==
            "atomr_flashattn::" + ("fa3" + ("::fwd<" + ("e4m3" + (", " + ("256" + (", " + ("full" + ">")))))))
    ensures KernelName(PlainCell(Sm100, F8E5m2, 80, true)) ==
            "atomr_flashattn::" + ("fa3" + ("::fwd<" + ("e5m2" + (", " + ("80" + (", " + ("causal" + ">")))))))
  {
    KnownNumbers();
    PlainName(PlainCell(Sm90a, F8E4m3, 256, false));
    PlainName(PlainCell(Sm100, F8E5m2, 80, true));
  }

  lemma PlainName(k: DispatchKey)
    requires !k.varlen && k.slidingWindow == None && !k.alibi && k.sink == 0 && !k.paged && k.gqaRatio <= 1
    ensures KernelName(k) ==
            "atomr_flashattn::" + (KindName(k.arch.SupportsFa3()) + ("::fwd<" + (k.dtype.Tag() + (", " +
            (Decimal(k.headDim) + (", " + (CausalTag(k.causal) + ">")))))))
  {
    NoSuffix(k);
  }

  lemma NoSuffix(k: DispatchKey)
    requires !k.varlen && k.slidingWindow == None && !k.alibi && k.sink == 0 && !k.paged && k.gqaRatio <= 1
    ensures Show(TAGS, Pieces(k)) == "" && ">" + Show(TAGS, Pieces(k)) == ">"
  {
    SixPieces(TAGS, Pieces(k));
  }

  /** Every option at once. */
  lemma KnownSuffixes(k: DispatchKey)
    requires k.varlen && k.slidingWindow == Some(4096) && k.alibi && k.sink == 4 && k.paged && k.gqaRatio == 8
    ensures Show(TAGS, Pieces(k)) ==
            "_varlen" + (("_sw" + "4096") + ("_alibi" + (("_sink" + "4") + ("_paged" + ("_gqa" + "8")))))
  {
    KnownNumbers();
    SixPieces(TAGS, Pieces(k));
    var last := ShowPiece("_gqa", Number(Some(8)));
    assert last + "" == last;
  }

  lemma SixPieces(tags: seq<string>, ps: seq<Piece>)
    requires |tags| == |ps| == 6
    ensures Show(tags, ps) ==
            ShowPiece(tags[0], ps[0]) + (ShowPiece(tags[1], ps[1]) + (ShowPiece(tags[2], ps[2]) +
            (ShowPiece(tags[3], ps[3]) + (ShowPiece(tags[4], ps[4]) + (ShowPiece(tags[5], ps[5]) + "")))))
  {
    ShowTail(tags, ps, 0);
    ShowTail(tags, ps, 1);
    ShowTail(tags, ps, 2);
    ShowTail(tags, ps, 3);
    ShowTail(tags, ps, 4);
    ShowTail(tags, ps, 5);
    assert tags[0..] == tags && ps[0..] == ps;
  }

  lemma ShowTail(tags: seq<string>, ps: seq<Piece>, i: nat)
    requires |tags| == |ps| && i < |ps|
    ensures Show(tags[i..], ps[i..]) == ShowPiece(tags[i], ps[i]) + Show(tags[i + 1..], ps[i + 1..])
  {
    assert tags[i..][1..] == tags[i + 1..] && ps[i..][1..] == ps[i + 1..];
  }

  /** The name tells the generation: exactly the Hopper and Blackwell keys get the FlashAttention 3 kernels. */
  lemma GenerationInName(k: DispatchKey)
    ensures "atomr_flashattn::" + "fa3" <= KernelName(k) <==> k.arch in {Sm90a, Sm100}
    ensures "atomr_flashattn::" + "fa2" <= KernelName(k) <==> k.arch in {Sm80, Sm89}
  {
    var rest := "::fwd<" + (k.dtype.Tag() + (", " + (Decimal(k.headDim) + (", " + (CausalTag(k.causal) + (">" +
                Show(TAGS, Pieces(k))))))));
    var kind := KindName(k.arch.SupportsFa3());
    PrefixThird("atomr_flashattn::", kind, rest, "fa3");
    PrefixThird("atomr_flashattn::", kind, rest, "fa2");
    assert "fa3"[2] != "fa2"[2];
  }

  lemma PrefixThird(a: string, b: string, c: string, d: string)
    requires |b| == |d|
    ensures a + d <= a + (b + c) <==> b == d
  {
    var s := a + (b + c);
    assert s[..|a| + |d|] == a + b;
    if a + d <= s {
      assert a + d == a + b;
      assert (a + d)[|a|..] == d && (a + b)[|a|..] == b;
    }
  }

  // ----- reading a name back -----

  /** What a kernel name says: everything but the exact architecture, of which it keeps the generation. */
  datatype Cell = Cell(
    fa3: bool,
    dtype: DType,
    headDim: nat,
    causal: bool,
    varlen: bool,
    slidingWindow: Option<nat>,
    alibi: bool,
    sink: nat,
    paged: bool,
    gqaRatio: nat)

  /** A GQA ratio of 0 is refused by validation; its name is that of ratio 1. */
  function CellOf(k: DispatchKey): Cell {
    Cell(k.arch.SupportsFa3(), k.dtype, k.headDim, k.causal, k.varlen, k.slidingWindow, k.alibi, k.sink, k.paged,
         if k.gqaRatio == 0 then 1 else k.gqaRatio)
  }

  const KINDS: seq<bool> := [false, true]
  const DTYPES: seq<DType> := [F16, Bf16, F8E4m3, F8E5m2]

  /** Read one optional suffix of the same kind as `like`. */
  function ReadPiece(tag: string, like: Piece, s: string): (Piece, string) {
    match Strip(tag, s)
    case None => (if like.Flag? then Flag(false) else Number(None), s)
    case Some(rest) =>
      if like.Flag? then (Flag(true), rest)
      else
        match ReadNumber(rest)
        case Some((n, rest')) => (Number(Some(n)), rest')
        case None => (Number(None), s)
  }

  /** Read the suffixes in order; nothing may be left over. */
  function ReadPieces(tags: seq<string>, like: seq<Piece>, s: string): Option<seq<Piece>>
    requires |tags| == |like|
  {
    if like == [] then (if s == "" then Some([]) else None)
    else
      var (p, rest) := ReadPiece(tags[0], like[0], s);
      match ReadPieces(tags[1..], like[1..], rest)
      case None => None
      case Some(ps) => Some([p] + ps)
  }

  const LIKE: seq<Piece> := [Flag(false), Number(None), Flag(false), Number(None), Flag(false), Number(None)]

  function ReadSuffixes(fa3: bool, dtype: DType, headDim: nat, causal: bool, s: string): Option<Cell> {
    match ReadPieces(TAGS, LIKE, s)
    case None => None
    case Some(ps) =>
      if |ps| == 6 && ps[0].Flag? && ps[1].Number? && ps[2].Flag? && ps[3].Number? && ps[4].Flag? && ps[5].Number? then
        Some(Cell(fa3, dtype, headDim, causal, ps[0].on, ps[1].shown, ps[2].on,
                  if ps[3].shown.Some? then ps[3].shown.value else 0, ps[4].on,
                  if ps[5].shown.Some? then ps[5].shown.value else 1))
      else None
  }

  /** The text between two fixed pieces, and what follows. */
  function ReadAfter<D>(tag: string, all: seq<D>, name: D -> string, s: string): Option<(D, string)> {
    match Strip(tag, s)
    case None => None
    case Some(rest) => ReadName(all, name, rest)
  }

  function ParseName(s: string): Option<Cell> {
    match ReadAfter("atomr_flashattn::", KINDS, KindName, s)
    case None => None
    case Some((fa3, s1)) =>
      match ReadAfter("::fwd<", DTYPES, (d: DType) => d.Tag(), s1)
      case None => None
      case Some((dtype, s2)) =>
        match Strip(", ", s2)
        case None => None
        case Some(s3) =>
          match ReadNumber(s3)
          case None => None
          case Some((headDim, s4)) =>
            match ReadAfter(", ", KINDS, CausalTag, s4)
            case None => None
            case Some((causal, s5)) =>
              match Strip(">", s5)
              case None => None
              case Some(s6) => ReadSuffixes(fa3, dtype, headDim, causal, s6)
  }

  // ----- the round trip -----

  /** The two characters after the underscore; the six suffix tags differ there. */
  function Lead(s: string): (char, char) {
    if |s| < 3 then (' ', ' ') else (s[1], s[2])
  }

  ghost predicate WellTagged(tags: seq<string>) {
    && (forall i :: 0 <= i < |tags| ==> |tags[i]| >= 3 && tags[i][0] == '_' && tags[i][1] != ' ')
    && (forall i, j :: 0 <= i < j < |tags| ==> Lead(tags[i]) != Lead(tags[j]))
  }

  ghost predicate SameKinds(ps: seq<Piece>, like: seq<Piece>) {
    |ps| == |like| && forall i :: 0 <= i < |ps| ==> (ps[i].Flag? <==> like[i].Flag?)
  }

  /** What is printed is empty or starts like one of the tags. */
  lemma {:induction false} ShowLeads(tags: seq<string>, ps: seq<Piece>) returns (i: nat)
    requires |tags| == |ps| && WellTagged(tags)
    ensures var s := Show(tags, ps);
            s == "" || (i < |tags| && |s| >= 3 && s[0] == '_' && Lead(s) == Lead(tags[i]))
  {
    i := 0;
    if ps != [] && ShowPiece(tags[0], ps[0]) == "" {
      i := ShowLeads(tags[1..], ps[1..]);
      assert Show(tags, ps) == Show(tags[1..], ps[1..]);
      i := i + 1;
    }
  }

  lemma ReadPieceBack(tag: string, p: Piece, like: Piece, rest: string)
    requires p.Flag? <==> like.Flag?
    requires |tag| >= 3 && Lead(rest) != Lead(tag) && !StartsWithDigit(rest)
    ensures ReadPiece(tag, like, ShowPiece(tag, p) + rest) == (p, rest)
  {
    match p
    case Flag(true) =>
      StripTag(tag, rest);
    case Number(Some(n)) =>
      assert tag + Decimal(n) + rest == tag + (Decimal(n) + rest);
      StripTag(tag, Decimal(n) + rest);
      ReadDecimal(n, rest);
    case _ =>
      assert "" + rest == rest;
  }

  lemma {:induction false} ReadPiecesBack(tags: seq<string>, ps: seq<Piece>, like: seq<Piece>)
    requires |tags| == |ps| && WellTagged(tags) && SameKinds(ps, like)
    ensures ReadPieces(tags, like, Show(tags, ps)) == Some(ps)
  {
    if ps != [] {
      var rest := Show(tags[1..], ps[1..]);
      var i := ShowLeads(tags[1..], ps[1..]);
      assert rest != "" ==> Lead(tags[0]) != Lead(tags[i + 1]);
      ReadPieceBack(tags[0], ps[0], like[0], rest);
      ReadPiecesBack(tags[1..], ps[1..], like[1..]);
      assert ps == [ps[0]] + ps[1..];
    }
  }

  lemma TagsAreWellFormed()
    ensures WellTagged(TAGS) && |TAGS| == 6
  {
    assert TAGS[0][1] == 'v' && TAGS[1][1] == 's' && TAGS[2][1] == 'a';
    assert TAGS[3][1] == 's' && TAGS[4][1] == 'p' && TAGS[5][1] == 'g';
    assert TAGS[1][2] == 'w' && TAGS[3][2] == 'i';
  }

  lemma ReadSuffixesBack(k: DispatchKey)
    ensures var c := CellOf(k);
            ReadSuffixes(c.fa3, c.dtype, c.headDim, c.causal, Show(TAGS, Pieces(k))) == Some(c)
  {
    TagsAreWellFormed();
    ReadPiecesBack(TAGS, Pieces(k), LIKE);
  }

  lemma Codes()
    ensures PrefixFree(KINDS, KindName)
    ensures PrefixFree(KINDS, CausalTag)
    ensures PrefixFree(DTYPES, (d: DType) => d.Tag())
  {
    assert KindName(false)[2] != KindName(true)[2];
    assert CausalTag(false)[0] != CausalTag(true)[0];
    var tag := (d: DType) => d.Tag();
    forall a, b | a in DTYPES && b in DTYPES && a != b ensures Diverge(tag(a), tag(b)) {
      assert tag(a)[0] != tag(b)[0] || tag(a)[1] != tag(b)[1];
    }
  }

  lemma ReadAfterBack<D(!new)>(tag: string, all: seq<D>, name: D -> string, d: D, rest: string)
    requires d in all && PrefixFree(all, name)
    ensures ReadAfter(tag, all, name, tag + (name(d) + rest)) == Some((d, rest))
  {
    StripTag(tag, name(d) + rest);
    ReadBack(all, name, d, rest);
  }

  /** Kernel names parse back: from the name of any key, the parser recovers every field except the exact
      architecture, of which it recovers the generation. */
  lemma NameParsesBack(k: DispatchKey)
    ensures ParseName(KernelName(k)) == Some(CellOf(k))
  {
    Codes();
    var tail := Show(TAGS, Pieces(k));
    var s5 := ">" + tail;
    var s4 := ", " + (CausalTag(k.causal) + s5);
    var s2 := ", " + (Decimal(k.headDim) + s4);
    var s1 := "::fwd<" + (k.dtype.Tag() + s2);
    ReadAfterBack("atomr_flashattn::", KINDS, KindName, k.arch.SupportsFa3(), s1);
    ReadAfterBack("::fwd<", DTYPES, (d: DType) => d.Tag(), k.dtype, s2);
    StripTag(", ", Decimal(k.headDim) + s4);
    assert s4[0] == ',';
    ReadDecimal(k.headDim, s4);
    ReadAfterBack(", ", KINDS, CausalTag, k.causal, s5);
    StripTag(">", tail);
    ReadSuffixesBack(k);
  }

  /** So two keys share a kernel name exactly if they agree on everything the name records. */
  lemma NamesEqualIffCellsEqual(a: DispatchKey, b: DispatchKey)
    ensures KernelName(a) == KernelName(b) <==> CellOf(a) == CellOf(b)
  {
    NameParsesBack(a);
    NameParsesBack(b);
    if CellOf(a) == CellOf(b) {
      assert Pieces(a) == Pieces(b);
    }
  }

  /** Among keys that pass validation, a shared name means the same key up to architectures of one generation. */
  lemma ValidNamesAreUnique(a: DispatchKey, b: DispatchKey)
    requires ValidateFwd(a).Ok? && ValidateFwd(b).Ok?
    ensures KernelName(a) == KernelName(b) <==> a.(arch := b.arch) == b && a.arch.SupportsFa3() == b.arch.SupportsFa3()
  {
    NamesEqualIffCellsEqual(a, b);
  }

  /** The prebuilt cells are therefore not all named differently, as their comment says:
      the two architectures of a generation share each name. */
  lemma PrebuiltNamesClash(cell: DispatchKey)
    requires cell.arch == Sm80
    ensures KernelName(cell) == KernelName(cell.(arch := Sm89))
    ensures KernelName(cell.(arch := Sm90a)) == KernelName(cell.(arch := Sm100))
    ensures KernelName(cell) != KernelName(cell.(arch := Sm100))
  {
    NamesEqualIffCellsEqual(cell, cell.(arch := Sm89));
    NamesEqualIffCellsEqual(cell.(arch := Sm90a), cell.(arch := Sm100));
    NamesEqualIffCellsEqual(cell, cell.(arch := Sm100));
  }

  /** What validation accepts: the conjunction of its five checks, in either direction. */
  lemma ValidIff(k: DispatchKey)
    ensures ValidateFwd(k).Ok? <==>
              && k.headDim in {64, 80, 96, 128, 192, 256}
              && (k.dtype.IsFp8() ==> k.arch.SupportsFp8())
              && (k.sink > 0 ==> k.slidingWindow.Some? || k.causal)
              && k.gqaRatio >= 1
              && k.slidingWindow != Some(0)
    ensures ValidateBwd(k).Ok? <==> ValidateFwd(k).Ok? && !k.dtype.IsFp8()
    ensures ValidatePaged(k).Ok? <==> ValidateFwd(k).Ok? && k.paged
  {}

  /** Which complaint a refused key gets: that of the first check it fails, in the order head dimension, fp8 support,
      sink without mask, GQA ratio, empty window. */
  lemma FirstComplaint(k: DispatchKey)
    requires ValidateFwd(k).Err?
    ensures var badDim := k.headDim !in {64, 80, 96, 128, 192, 256};
            var badFp8 := k.dtype in {F8E4m3, F8E5m2} && k.arch !in {Sm90a, Sm100};
            var badSink := k.sink > 0 && k.slidingWindow == None && !k.causal;
            ValidateFwd(k).error ==
            if badDim then UnsupportedHeadDim(k.headDim)
            else if badFp8 then Fp8RequiresHopper(k.arch)
            else if badSink then SinkWithoutMask
            else if k.gqaRatio == 0 then InvalidGqaRatio(0)
            else ZeroWindow
  {}

  /** The GQA ratio only has to be at least 1: in a valid key it may be replaced by any other such number. */
  lemma AnyRatioIsValid(k: DispatchKey, ratio: u32)
    requires ValidateFwd(k).Ok?
    ensures ValidateFwd(k.(gqaRatio := ratio)).Ok? <==> ratio >= 1
  {}

  /** Ratio 3, for one. */
  lemma RatioThreeIsValid()
    ensures ValidateFwd(PlainCell(Sm80, F16, 64, true).(gqaRatio := 3)).Ok?
  {}

  // ----- the table -----

  const ARCHES: seq<SmArch> := [Sm80, Sm89, Sm90a, Sm100]
  const FP8_ARCHES: seq<SmArch> := [Sm90a, Sm100]
  const FP8_HEAD_DIMS: seq<u32> := [64, 128, 256]
  const FLAGS: seq<bool> := [false, true]

  function PlainCell(arch: SmArch, dtype: DType, headDim: u32, causal: bool): DispatchKey {
    DispatchKey(arch, dtype, headDim, causal, false, None, false, 0, false, 1)
  }

  /** The cells that are registered ahead of time. */
  predicate Prebuilt(k: DispatchKey, fp8: bool) {
    && k == PlainCell(k.arch, k.dtype, k.headDim, k.causal)
    && (if k.dtype.IsFp8() then fp8 && k.arch in FP8_ARCHES && k.headDim in FP8_HEAD_DIMS
        else k.headDim in ALLOWED)
  }

  function LookupSpec(k: DispatchKey): Result<string, DispatchError> {
    match ValidateFwd(k)
    case Err(e) => Err(e)
    case Ok(_) => Ok(KernelName(k))
  }

  /** The plain cells over the listed values, for both settings of `causal`. */
  ghost predicate Cross(k: DispatchKey, arches: seq<SmArch>, dtypes: seq<DType>, dims: seq<u32>) {
    && k == PlainCell(k.arch, k.dtype, k.headDim, k.causal)
    && k.arch in arches && k.dtype in dtypes && k.headDim in dims
  }

  /** Every cell of the cross product passes validation, so none is skipped. */
  ghost predicate Registrable(arches: seq<SmArch>, dtypes: seq<DType>, dims: seq<u32>) {
    && (forall d :: d in dims ==> d in ALLOWED)
    && (forall a, t :: a in arches && t in dtypes ==> t.IsFp8() ==> a.SupportsFp8())
  }

  ghost predicate NamesOnly(entries: map<DispatchKey, string>) {
    forall k :: k in entries ==> entries[k] == KernelName(k)
  }

  /** `now` is `before` with the names of a cross product added. */
  ghost predicate Grown(before: map<DispatchKey, string>, now: map<DispatchKey, string>,
                        arches: seq<SmArch>, dtypes: seq<DType>, dims: seq<u32>) {
    NamesOnly(now) && forall k :: k in now <==> k in before || Cross(k, arches, dtypes, dims)
  }

  function CellPair(arch: SmArch, dtype: DType, dim: u32): seq<DispatchKey> {
    [PlainCell(arch, dtype, dim, false), PlainCell(arch, dtype, dim, true)]
  }

  /** Innermost loop of the table builder: both settings of `causal` for one cell. */
  method AddCell(before: map<DispatchKey, string>, arch: SmArch, dtype: DType, dim: u32)
    returns (entries: map<DispatchKey, string>)
    requires NamesOnly(before) && dim in ALLOWED && (dtype.IsFp8() ==> arch.SupportsFp8())
    ensures NamesOnly(entries) && forall k :: k in entries <==> k in before || k in CellPair(arch, dtype, dim)
  {
    entries := before;
    ghost var cells := CellPair(arch, dtype, dim);
    for c := 0 to |FLAGS|
      invariant NamesOnly(entries)
      invariant forall k :: k in entries <==> k in before || k in cells[..c]
    {
      var key := PlainCell(arch, dtype, dim, FLAGS[c]);
      assert key == cells[c];
      if ValidateFwd(key).Ok? {
        entries := entries[key := KernelName(key)];
      }
      assert cells[..c + 1] == cells[..c] + [key];
    }
    assert cells[..|FLAGS|] == cells;
  }

  lemma CellIsCross(arch: SmArch, dtype: DType, dim: u32)
    ensures forall k :: Cross(k, [arch], [dtype], [dim]) <==> k in CellPair(arch, dtype, dim)
  {}

  method AddDims(before: map<DispatchKey, string>, arch: SmArch, dtype: DType, dims: seq<u32>)
    returns (entries: map<DispatchKey, string>)
    requires NamesOnly(before) && Registrable([arch], [dtype], dims)
    ensures Grown(before, entries, [arch], [dtype], dims)
  {
    entries := before;
    for j := 0 to |dims|
      invariant Grown(before, entries, [arch], [dtype], dims[..j])
    {
      CellIsCross(arch, dtype, dims[j]);
      assert arch in [arch] && dtype in [dtype];
      entries := AddCell(entries, arch, dtype, dims[j]);
      assert dims[..j + 1] == dims[..j] + [dims[j]];
    }
    assert dims[..|dims|] == dims;
  }

  method AddDtypes(before: map<DispatchKey, string>, arch: SmArch, dtypes: seq<DType>, dims: seq<u32>)
    returns (entries: map<DispatchKey, string>)
    requires NamesOnly(before) && Registrable([arch], dtypes, dims)
    ensures Grown(before, entries, [arch], dtypes, dims)
  {
    entries := before;
    for i := 0 to |dtypes|
      invariant Grown(before, entries, [arch], dtypes[..i], dims)
    {
      entries := AddDims(entries, arch, dtypes[i], dims);
      assert dtypes[..i + 1] == dtypes[..i] + [dtypes[i]];
    }
    assert dtypes[..|dtypes|] == dtypes;
  }

  /** The nested loops over a cross product of cells. */
  method AddCross(before: map<DispatchKey, string>, arches: seq<SmArch>, dtypes: seq<DType>, dims: seq<u32>)
    returns (entries: map<DispatchKey, string>)
    requires NamesOnly(before) && Registrable(arches, dtypes, dims)
    ensures Grown(before, entries, arches, dtypes, dims)
  {
    entries := before;
    for a := 0 to |arches|
      invariant Grown(before, entries, arches[..a], dtypes, dims)
    {
      entries := AddDtypes(entries, arches[a], dtypes, dims);
      assert arches[..a + 1] == arches[..a] + [arches[a]];
    }
    assert arches[..|arches|] == arches;
  }

  /** The prebuilt cells, spelt out. */
  lemma PrebuiltIff(k: DispatchKey, fp8: bool)
    ensures Prebuilt(k, fp8) <==>
            && !k.varlen && k.slidingWindow == None && !k.alibi && k.sink == 0 && !k.paged && k.gqaRatio == 1
            && ((k.dtype in {F16, Bf16} && k.headDim in {64, 80, 96, 128, 192, 256}) ||
                (fp8 && k.dtype in {F8E4m3, F8E5m2} && k.headDim in {64, 128, 256} && k.arch in {Sm90a, Sm100}))
  {}

  lemma AllArches(a: SmArch)
    ensures a in ARCHES
  {
    match a
    case Sm80 => assert a == ARCHES[0];
    case Sm89 => assert a == ARCHES[1];
    case Sm90a => assert a == ARCHES[2];
    case Sm100 => assert a == ARCHES[3];
  }

  lemma PrebuiltIsCross(fp8: bool)
    ensures forall k :: Prebuilt(k, fp8) <==>
      Cross(k, ARCHES, [F16, Bf16], ALLOWED) || (fp8 && Cross(k, FP8_ARCHES, [F8E4m3, F8E5m2], FP8_HEAD_DIMS))
  {
    forall k
      ensures Prebuilt(k, fp8) <==>
        Cross(k, ARCHES, [F16, Bf16], ALLOWED) || (fp8 && Cross(k, FP8_ARCHES, [F8E4m3, F8E5m2], FP8_HEAD_DIMS))
    {
      AllArches(k.arch);
      assert k.dtype in [F16, Bf16] <==> !k.dtype.IsFp8();
      assert k.dtype in [F8E4m3, F8E5m2] <==> k.dtype.IsFp8();
    }
  }

  class DispatchTable {
    const entries: map<DispatchKey, string>
    const fp8: bool

    /** The table is a cache of kernel names over exactly the prebuilt cells. */
    ghost predicate Valid() {
      NamesOnly(entries) && forall k :: k in entries <==> Prebuilt(k, fp8)
    }

    /** `fp8` is the cargo feature of that name. */
    constructor (fp8: bool)
      ensures Valid() && this.fp8 == fp8
    {
      var all := AddCross(map[], ARCHES, [F16, Bf16], ALLOWED);
      if fp8 {
        all := AddCross(all, FP8_ARCHES, [F8E4m3, F8E5m2], FP8_HEAD_DIMS);
      }
      PrebuiltIsCross(fp8);
      entries := all;
      this.fp8 := fp8;
    }

    /** The prebuilt table never changes an answer: lookup is validation followed by the name. */
    method Lookup(key: DispatchKey) returns (r: Result<string, DispatchError>)
      requires Valid()
      ensures r == LookupSpec(key)
    {
      var v := ValidateFwd(key);
      if v.Err? {
        return Err(v.error);
      }
      if key in entries {
        return Ok(entries[key]);
      }
      r := Ok(KernelName(key));
    }

    method StrictLookup(key: DispatchKey) returns (r: Result<string, DispatchError>)
      requires Valid()
      ensures r == if Prebuilt(key, fp8) then Ok(KernelName(key)) else Err(UnknownKey(key))
    {
      r := if key in entries then Ok(entries[key]) else Err(UnknownKey(key));
    }
  }

  /** Appending to the name appends to its tail. */
  lemma BaseAppend(k: DispatchKey, a: string, b: string)
    ensures Base(k, a) + b == Base(k, a + b)
  {
    var t1 := ">" + a;
    var t2 := CausalTag(k.causal) + t1;
    var t3 := ", " + t2;
    var t4 := Decimal(k.headDim) + t3;
    var t5 := ", " + t4;
    var t6 := k.dtype.Tag() + t5;
    var t7 := "::fwd<" + t6;
    var t8 := KindName(k.arch.SupportsFa3()) + t7;
    Assoc(">", a, b);
    Assoc(CausalTag(k.causal), t1, b);
    Assoc(", ", t2, b);
    Assoc(Decimal(k.headDim), t3, b);
    Assoc(", ", t4, b);
    Assoc(k.dtype.Tag(), t5, b);
    Assoc("::fwd<", t6, b);
    Assoc(KindName(k.arch.SupportsFa3()), t7, b);
    Assoc("atomr_flashattn::", t8, b);
  }

  /** The suffixes pushed so far, one piece at a time. */
  lemma {:induction false} ShowSnoc(tags: seq<string>, ps: seq<Piece>, tag: string, p: Piece)
    requires |tags| == |ps|
    ensures Show(tags + [tag], ps + [p]) == Show(tags, ps) + ShowPiece(tag, p)
  {
    if ps == [] {
      assert ShowPiece(tag, p) + Show([], []) == ShowPiece(tag, p);
    } else {
      assert (tags + [tag])[1..] == tags[1..] + [tag] && (ps + [p])[1..] == ps[1..] + [p];
      ShowSnoc(tags[1..], ps[1..], tag, p);
      Assoc(ShowPiece(tags[0], ps[0]), Show(tags[1..], ps[1..]), ShowPiece(tag, p));
    }
  }

  /** One conditional `push_str`: the `i`-th suffix. */
  method Push(k: DispatchKey, i: nat, s: string) returns (t: string)
    requires i < |TAGS| == |Pieces(k)|
    requires s == Base(k, Show(TAGS[..i], Pieces(k)[..i]))
    ensures t == Base(k, Show(TAGS[..i + 1], Pieces(k)[..i + 1]))
  {
    var (tag, p) := (TAGS[i], Pieces(k)[i]);
    t := s + ShowPiece(tag, p);
    ghost var (tags, ps) := (TAGS[..i], Pieces(k)[..i]);
    BaseAppend(k, Show(tags, ps), ShowPiece(tag, p));
    ShowSnoc(tags, ps, tag, p);
    assert tags + [tag] == TAGS[..i + 1] && ps + [p] == Pieces(k)[..i + 1];
  }

  /** Three suffixes in a row. */
  method PushThree(k: DispatchKey, i: nat, s: string) returns (t: string)
    requires i + 3 <= |TAGS| == |Pieces(k)|
    requires s == Base(k, Show(TAGS[..i], Pieces(k)[..i]))
    ensures t == Base(k, Show(TAGS[..i + 3], Pieces(k)[..i + 3]))
  {
    t := Push(k, i, s);
    t := Push(k, i + 1, t);
    t := Push(k, i + 2, t);
  }

  /** The name as the original builds it, pushing one suffix after the other onto a string. */
  method BuildKernelName(k: DispatchKey) returns (s: string)
    ensures s == KernelName(k)
  {
    s := Base(k, "");
    s := PushThree(k, 0, s);
    s := PushThree(k, 3, s);
    assert TAGS[..6] == TAGS && Pieces(k)[..6] == Pieces(k);
  }
}
