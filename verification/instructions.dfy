/**
 * The instructions of a raster-pipeline program and the width-decomposition rules the
 * builder uses to lower wide operations onto fixed-width (at most four slot) opcodes.
 */
module Instructions {
  import opened Slots
  import opened Opcodes
  import opened Literals

  datatype Instr =
    | StoreSrcRg(dst: Range)
    | StoreSrc(dst: Range)
    | StoreDst(dst: Range)
    | LoadSrc(src: Range)
    | LoadDst(src: Range)
    | InitLaneMasks
    | MaskOffReturnMask
    | MaskOffLoopMask
    | ReenableLoopMask(src: Range)
    | Immediate(bits: Bits32)
    | LoadUnmasked(src: Range)
    | StoreUnmasked(dst: Range)
    | StoreMasked(dst: Range)
      /** Saves an execution mask into a stack cell. */
    | StoreMask(mask: MaskKind, dst: Range)
      /** Restores an execution mask from a stack cell. */
    | LoadMask(mask: MaskKind, src: Range)
      /** `CondMask = a & b` over two adjacent cells. */
    | MergeConditionMask(src: Range)
    | MergeLoopMask(src: Range)
    | CopyConstant(dst: Range, bits: Bits32)
    | CopyUniforms(dst: Range, src: Range)
    | CopySlots(masked: bool, dst: Range, src: Range)
      /** Writes `dst.count` cells from `dst.start`, component `i` taken from cell `dst.start + components[i]`. */
    | Swizzle(dst: Range, components: seq<nat>)
    | Binary(op: BinaryOp, dst: Range, src: Range)
    | Unary(uop: UnaryOp, dst: Range)
      /** A position marker; exists only while building. */
    | Label(labelId: nat)
      /** A branch that still names its label; exists only while building. */
    | BranchTo(branch: BranchKind, labelId: nat)
      /** A branch resolved to an offset relative to its own position. */
    | Branch(branch: BranchKind, offset: int)
    | StackRewind

  /** Every slot range an instruction reads or writes. */
  function Operands(x: Instr): seq<Range> {
    match x
    case StoreSrcRg(d) => [d]
    case StoreSrc(d) => [d]
    case StoreDst(d) => [d]
    case LoadSrc(s) => [s]
    case LoadDst(s) => [s]
    case ReenableLoopMask(s) => [s]
    case LoadUnmasked(s) => [s]
    case StoreUnmasked(d) => [d]
    case StoreMasked(d) => [d]
    case StoreMask(_, d) => [d]
    case LoadMask(_, s) => [s]
    case MergeConditionMask(s) => [s]
    case MergeLoopMask(s) => [s]
    case CopyConstant(d, _) => [d]
    case CopyUniforms(d, s) => [d, s]
    case CopySlots(_, d, s) => [d, s]
    case Swizzle(d, _) => [d]
    case Binary(_, d, s) => [d, s]
    case Unary(_, d) => [d]
    case _ => []
  }

  /** Applies `f` to every slot range of `x`, leaving everything else alone. */
  function MapOperands(x: Instr, f: Range -> Range): (y: Instr)
    ensures |Operands(y)| == |Operands(x)|
    ensures forall i :: 0 <= i < |Operands(x)| ==> Operands(y)[i] == f(Operands(x)[i])
  {
    match x
    case StoreSrcRg(d) => StoreSrcRg(f(d))
    case StoreSrc(d) => StoreSrc(f(d))
    case StoreDst(d) => StoreDst(f(d))
    case LoadSrc(s) => LoadSrc(f(s))
    case LoadDst(s) => LoadDst(f(s))
    case ReenableLoopMask(s) => ReenableLoopMask(f(s))
    case LoadUnmasked(s) => LoadUnmasked(f(s))
    case StoreUnmasked(d) => StoreUnmasked(f(d))
    case StoreMasked(d) => StoreMasked(f(d))
    case StoreMask(k, d) => StoreMask(k, f(d))
    case LoadMask(k, s) => LoadMask(k, f(s))
    case MergeConditionMask(s) => MergeConditionMask(f(s))
    case MergeLoopMask(s) => MergeLoopMask(f(s))
    case CopyConstant(d, v) => CopyConstant(f(d), v)
    case CopyUniforms(d, s) => CopyUniforms(f(d), f(s))
    case CopySlots(m, d, s) => CopySlots(m, f(d), f(s))
    case Swizzle(d, c) => Swizzle(f(d), c)
    case Binary(op, d, s) => Binary(op, f(d), f(s))
    case Unary(op, d) => Unary(op, f(d))
    case _ => x
  }

  /** The kinds of operation that are lowered by splitting into chunks of at most four slots. */
  datatype ChunkKind = CopyChunk(masked: bool) | UniformChunk | NotChunk | BitwiseChunk(bit: BitOp)

  /** The single fixed-width instruction of a chunk kind over equally wide `dst` and `src`. */
  function Chunk(kind: ChunkKind, dst: Range, src: Range): Instr {
    match kind
    case CopyChunk(m) => CopySlots(m, dst, src)
    case UniformChunk => CopyUniforms(dst, src)
    case NotChunk => Unary(BitwiseNot, dst)
    case BitwiseChunk(b) => Binary(Bitwise(b), dst, src)
  }

  /** How many chunks of at most four slots cover `n` slots. */
  function ChunkCount(n: nat): nat {
    (n + 3) / 4
  }

  /** The width of chunk `i` when `n` slots are split four at a time. */
  function ChunkWidth(n: nat, i: nat): nat
    requires 4 * i < n
  {
    if n - 4 * i >= 4 then 4 else n - 4 * i
  }

  /**
   * `out` is the decomposition of a `dst`/`src` operation: chunk `i` covers slots `4i` onwards of
   * both ranges, in order, and is four wide except possibly the last.
   */
  ghost predicate IsChunked(out: seq<Instr>, kind: ChunkKind, dst: Range, src: Range) {
    && |out| == ChunkCount(dst.count)
    && forall i :: 0 <= i < |out| ==>
         4 * i < dst.count
         && out[i] == Chunk(kind, Slice(dst, 4 * i, ChunkWidth(dst.count, i)),
                                  Slice(src, 4 * i, ChunkWidth(dst.count, i)))
  }

  /** Chunk `i > 0` of `n` slots is chunk `i - 1` of the slots after the first four. */
  lemma ChunkShift(kind: ChunkKind, dst: Range, src: Range, rest: seq<Instr>, i: nat)
    requires dst.count == src.count && dst.count >= 4
    requires IsChunked(rest, kind, Slice(dst, 4, dst.count - 4), Slice(src, 4, src.count - 4))
    requires 0 < i <= |rest|
    ensures 4 * i < dst.count
    ensures rest[i - 1] == Chunk(kind, Slice(dst, 4 * i, ChunkWidth(dst.count, i)),
                                       Slice(src, 4 * i, ChunkWidth(dst.count, i)))
  {
    var n := dst.count;
    var cw := ChunkWidth(n - 4, i - 1);
    assert 4 * (i - 1) < n - 4;
    assert rest[i - 1] == Chunk(kind, Slice(Slice(dst, 4, n - 4), 4 * (i - 1), cw),
                                      Slice(Slice(src, 4, n - 4), 4 * (i - 1), cw));
    assert cw == ChunkWidth(n, i);
  }

  /** Taking one chunk off `n >= 1` slots leaves one chunk fewer; a narrow first chunk is the only one. */
  lemma ChunkCountStep(n: nat, w: nat)
    requires n >= 1 && w == if n >= 4 then 4 else n
    ensures ChunkCount(n) == ChunkCount(n - w) + 1 && (n < 4 ==> ChunkCount(n - w) == 0)
  {
  }

  /** Prepending the first chunk to a decomposition of the remainder decomposes the whole. */
  lemma ChunkedCons(kind: ChunkKind, dst: Range, src: Range, w: nat, rest: seq<Instr>, out: seq<Instr>)
    requires dst.count == src.count && dst.count >= 1
    requires w == if dst.count >= 4 then 4 else dst.count
    requires IsChunked(rest, kind, Slice(dst, w, dst.count - w), Slice(src, w, src.count - w))
    requires out == [Chunk(kind, Slice(dst, 0, w), Slice(src, 0, w))] + rest
    ensures IsChunked(out, kind, dst, src)
  {
    var n := dst.count;
    ChunkCountStep(n, w);
    forall i | 0 <= i < |out|
      ensures 4 * i < n
      ensures out[i] == Chunk(kind, Slice(dst, 4 * i, ChunkWidth(n, i)), Slice(src, 4 * i, ChunkWidth(n, i)))
    {
      if i > 0 {
        ChunkShift(kind, dst, src, rest, i);
        assert out[i] == rest[i - 1];
      }
    }
  }

  /** Emits the widest fixed-width chunk first and recurses on the remainder. */
  function LowerChunked(kind: ChunkKind, dst: Range, src: Range): (out: seq<Instr>)
    requires dst.count == src.count
    ensures IsChunked(out, kind, dst, src)
    decreases dst.count
  {
    if dst.count == 0 then []
    else
      var n := dst.count;
      var w := if n >= 4 then 4 else n;
      var rest := LowerChunked(kind, Slice(dst, w, n - w), Slice(src, w, n - w));
      var out := [Chunk(kind, Slice(dst, 0, w), Slice(src, 0, w))] + rest;
      ChunkedCons(kind, dst, src, w, rest, out);
      out
  }

  function SumChunkWidths(n: nat, k: nat): nat
    requires 4 * k <= n + 3
    requires k <= ChunkCount(n)
  {
    if k == 0 then 0 else SumChunkWidths(n, k - 1) + ChunkWidth(n, k - 1)
  }

  /** The chunk widths of `n` slots add up to `n`, each is between 1 and 4, and only the last is narrower than 4. */
  lemma {:induction false} ChunkWidthsCover(n: nat)
    ensures SumChunkWidths(n, ChunkCount(n)) == n
    ensures forall i :: 0 <= i < ChunkCount(n) ==> 1 <= ChunkWidth(n, i) <= 4
    ensures forall i :: 0 <= i < ChunkCount(n) - 1 ==> ChunkWidth(n, i) == 4
  {
    var k := 0;
    while k < ChunkCount(n)
      invariant 0 <= k <= ChunkCount(n)
      invariant SumChunkWidths(n, k) == if 4 * k <= n then 4 * k else n
    {
      k := k + 1;
    }
  }

  /** No decomposition into instructions of at most four slots is shorter. */
  lemma ChunkCountMinimal(n: nat, k: nat)
    requires 4 * k >= n
    ensures ChunkCount(n) <= k
  {
  }

  function Zeros(k: nat): (z: seq<nat>)
    ensures |z| == k
    ensures forall i :: 0 <= i < k ==> z[i] == 0
  {
    seq(k, _ => 0)
  }

  /** How many broadcast steps `duplicate(n)` takes: each adds at most three copies. */
  function DupCount(n: nat): nat {
    (n + 2) / 3
  }

  /** How many copies step `i` of `duplicate(n)` adds. */
  function DupWidth(n: nat, i: nat): nat
    requires 3 * i < n
  {
    if n - 3 * i >= 3 then 3 else n - 3 * i
  }

  /**
   * `out` broadcasts cell `top` of `space` into `n` further cells: step `i` is a
   * `swizzle_{k+1}` with all-`x` components on the cells from `top + 3i`, adding `k`
   * copies where `k` is `DupWidth(n, i)`.
   */
  ghost predicate IsBroadcast(out: seq<Instr>, space: Space, top: nat, n: nat) {
    && |out| == DupCount(n)
    && forall i :: 0 <= i < |out| ==>
         3 * i < n
         && out[i] == Swizzle(Range(space, top + 3 * i, DupWidth(n, i) + 1), Zeros(DupWidth(n, i) + 1))
  }

  /** Step `i > 0` of `n` copies is step `i - 1` of the copies after the first three. */
  lemma BroadcastShift(space: Space, top: nat, n: nat, rest: seq<Instr>, i: nat)
    requires n >= 3
    requires IsBroadcast(rest, space, top + 3, n - 3)
    requires 0 < i <= |rest|
    ensures 3 * i < n
    ensures rest[i - 1] == Swizzle(Range(space, top + 3 * i, DupWidth(n, i) + 1), Zeros(DupWidth(n, i) + 1))
  {
    var dw := DupWidth(n - 3, i - 1);
    assert 3 * (i - 1) < n - 3;
    assert rest[i - 1] == Swizzle(Range(space, top + 3 + 3 * (i - 1), dw + 1), Zeros(dw + 1));
    assert dw == DupWidth(n, i);
  }

  /** Taking one step off `n >= 1` copies leaves one step fewer; a narrow first step is the only one. */
  lemma DupCountStep(n: nat, k: nat)
    requires n >= 1 && k == if n >= 3 then 3 else n
    ensures DupCount(n) == DupCount(n - k) + 1 && (n < 3 ==> DupCount(n - k) == 0)
  {
  }

  lemma BroadcastCons(space: Space, top: nat, n: nat, k: nat, rest: seq<Instr>, out: seq<Instr>)
    requires n >= 1 && k == if n >= 3 then 3 else n
    requires IsBroadcast(rest, space, top + k, n - k)
    requires out == [Swizzle(Range(space, top, k + 1), Zeros(k + 1))] + rest
    ensures IsBroadcast(out, space, top, n)
  {
    DupCountStep(n, k);
    forall i | 0 <= i < |out|
      ensures 3 * i < n
      ensures out[i] == Swizzle(Range(space, top + 3 * i, DupWidth(n, i) + 1), Zeros(DupWidth(n, i) + 1))
    {
      if i > 0 {
        BroadcastShift(space, top, n, rest, i);
        assert out[i] == rest[i - 1];
      }
    }
  }

  /** Broadcasts the top cell three copies at a time, then the remainder. */
  function LowerDuplicate(space: Space, top: nat, n: nat): (out: seq<Instr>)
    ensures IsBroadcast(out, space, top, n)
    decreases n
  {
    if n == 0 then []
    else
      var k := if n >= 3 then 3 else n;
      var rest := LowerDuplicate(space, top + k, n - k);
      var out := [Swizzle(Range(space, top, k + 1), Zeros(k + 1))] + rest;
      BroadcastCons(space, top, n, k, rest, out);
      out
  }

  /** The broadcast steps of `duplicate(n)` add exactly `n` cells in all. */
  lemma {:induction false} DuplicateAddsN(n: nat)
    ensures forall i :: 0 <= i < DupCount(n) ==> 1 <= DupWidth(n, i) <= 3
    ensures DupCount(n) == 0 || 3 * (DupCount(n) - 1) + DupWidth(n, DupCount(n) - 1) == n
  {
  }
}
