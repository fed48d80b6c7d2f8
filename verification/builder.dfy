/**
 * The raster-pipeline program builder: a growing instruction list plus one depth counter per
 * temporary stack. Every stack operation addresses cells relative to the bottom of the current
 * stack; `finish()` (module Programs) relocates the stacks into one flat cell space.
 */
module RasterBuilder {
  import opened Slots
  import opened Opcodes
  import opened Literals
  import opened Instructions
  import opened Labels

  datatype Builder = Builder(
    code: seq<Instr>,
    current: nat,          // the stack that stack operations use
    depths: seq<nat>,      // the number of cells in use on each stack
    maxDepths: seq<nat>,   // the most cells each stack has ever held
    numLabels: nat)        // label IDs handed out so far

  /** A range of stack `s` lies below that stack's high-water mark; value and uniform ranges always fit. */
  predicate RangeFits(r: Range, maxDepths: seq<nat>) {
    match r.space
    case Temp(s) => s < |maxDepths| && r.start + r.count <= maxDepths[s]
    case Cell => false
    case _ => true
  }

  /** What the builder may append: no resolved branches or rewinds, known labels, ranges that fit. */
  predicate InstrFits(x: Instr, maxDepths: seq<nat>, numLabels: nat) {
    && (forall r <- Operands(x) :: RangeFits(r, maxDepths))
    && (x.Label? ==> x.labelId < numLabels)
    && (x.BranchTo? ==> x.labelId < numLabels)
    && !x.Branch? && !x.StackRewind?
  }

  /** Instructions that may be appended without binding a label. */
  predicate Fits(out: seq<Instr>, maxDepths: seq<nat>, numLabels: nat) {
    forall i :: 0 <= i < |out| ==> InstrFits(out[i], maxDepths, numLabels) && !out[i].Label?
  }

  predicate Valid(b: Builder) {
    && |b.depths| == |b.maxDepths|
    && b.current < |b.depths|
    && (forall s :: 0 <= s < |b.depths| ==> b.depths[s] <= b.maxDepths[s])
    && (forall i {:trigger InstrFits(b.code[i], b.maxDepths, b.numLabels)} ::
          0 <= i < |b.code| ==> InstrFits(b.code[i], b.maxDepths, b.numLabels))
    && BoundOnce(b.code)
  }

  /** The number of cells in use on the current stack. */
  function Depth(b: Builder): nat
    requires b.current < |b.depths|
  {
    b.depths[b.current]
  }

  /** The cell range `[start, start + n)` of the current stack. */
  function Cells(b: Builder, start: nat, n: nat): Range {
    Range(Temp(b.current), start, n)
  }

  /** What `r` has that `b` did not: the instructions appended by one operation. */
  function Added(b: Builder, r: Builder): seq<Instr>
    requires |b.code| <= |r.code|
  {
    r.code[|b.code|..]
  }

  /**
   * `r` continues `b` by appending code: the current stack, the label count and every other
   * stack's depth are as before.
   */
  ghost predicate Appended(b: Builder, r: Builder) {
    && |b.code| <= |r.code| && r.code[..|b.code|] == b.code
    && r.current == b.current && r.numLabels == b.numLabels
    && |r.depths| == |b.depths|
    && (forall s :: 0 <= s < |b.depths| && s != b.current ==> r.depths[s] == b.depths[s])
  }

  function Raise(m: seq<nat>, s: nat, d: nat): (m2: seq<nat>)
    requires s < |m|
    ensures |m2| == |m| && m2[s] >= d
    ensures forall t :: 0 <= t < |m| ==> m[t] <= m2[t]
    ensures forall t :: 0 <= t < |m| && t != s ==> m2[t] == m[t]
  {
    m[s := if d > m[s] then d else m[s]]
  }

  lemma FitsRaised(x: Instr, m: seq<nat>, m2: seq<nat>, n: nat, n2: nat)
    requires |m| == |m2| && forall t :: 0 <= t < |m| ==> m[t] <= m2[t]
    requires n <= n2
    requires InstrFits(x, m, n)
    ensures InstrFits(x, m2, n2)
  {
    forall r <- Operands(x) ensures RangeFits(r, m2) {
      assert RangeFits(r, m);
    }
  }

  lemma BoundOnceAppend(code: seq<Instr>, out: seq<Instr>)
    requires BoundOnce(code)
    requires forall i :: 0 <= i < |out| ==> !out[i].Label?
    ensures BoundOnce(code + out)
  {
    var c := code + out;
    assert forall k :: |code| <= k < |c| ==> c[k] == out[k - |code|];
  }

  /** Appends `out` and sets the current stack's depth, raising its high-water mark as needed. */
  function Emit(b: Builder, out: seq<Instr>, depth: nat): (r: Builder)
    requires Valid(b)
    requires Fits(out, Raise(b.maxDepths, b.current, depth), b.numLabels)
    ensures Valid(r) && Appended(b, r)
    ensures Added(b, r) == out && Depth(r) == depth
  {
    var m := Raise(b.maxDepths, b.current, depth);
    var r := Builder(b.code + out, b.current, b.depths[b.current := depth], m, b.numLabels);
    forall i | 0 <= i < |r.code| ensures InstrFits(r.code[i], m, b.numLabels) {
      if i < |b.code| {
        assert r.code[i] == b.code[i];
        FitsRaised(b.code[i], b.maxDepths, m, b.numLabels, b.numLabels);
      } else {
        assert r.code[i] == out[i - |b.code|];
      }
    }
    BoundOnceAppend(b.code, out);
    assert r.code[..|b.code|] == b.code;
    assert r.code[|b.code|..] == out;
    r
  }

  lemma SliceFits(r: Range, offset: nat, n: nat, m: seq<nat>)
    requires RangeFits(r, m) && offset + n <= r.count
    ensures RangeFits(Slice(r, offset, n), m)
  {
  }

  /** A chunked lowering over ranges that fit only touches slots that fit. */
  lemma ChunksFit(out: seq<Instr>, kind: ChunkKind, dst: Range, src: Range, m: seq<nat>, n: nat)
    requires dst.count == src.count
    requires IsChunked(out, kind, dst, src)
    requires RangeFits(dst, m) && RangeFits(src, m)
    ensures Fits(out, m, n)
  {
    forall i | 0 <= i < |out| ensures InstrFits(out[i], m, n) && !out[i].Label? {
      var w := ChunkWidth(dst.count, i);
      SliceFits(dst, 4 * i, w, m);
      SliceFits(src, 4 * i, w, m);
      assert out[i] == Chunk(kind, Slice(dst, 4 * i, w), Slice(src, 4 * i, w));
    }
  }

  lemma BroadcastFits(out: seq<Instr>, s: nat, top: nat, n: nat, m: seq<nat>, nl: nat)
    requires IsBroadcast(out, Temp(s), top, n)
    requires s < |m| && top + n + 1 <= m[s]
    ensures Fits(out, m, nl)
  {
    forall i | 0 <= i < |out| ensures InstrFits(out[i], m, nl) && !out[i].Label? {
      var w := DupWidth(n, i);
      assert Operands(out[i]) == [Range(Temp(s), top + 3 * i, w + 1)];
    }
  }

  // ---------------------------------------------------------------- construction

  /** A fresh builder: no code, one empty stack (stack 0) selected, no labels. */
  function NewBuilder(): (b: Builder)
    ensures Valid(b)
    ensures |b.code| == 0 && Depth(b) == 0 && b.current == 0 && b.numLabels == 0
  {
    Builder([], 0, [0], [0], 0)
  }

  /**
   * The instructions with a fixed shape that the builder appends verbatim: the accumulator
   * loads and stores (`store_src_rg` takes two value slots, the others four or one), the
   * lane-mask set-up, and `immediate_f/i/u`.
   */
  predicate IsFixedShape(x: Instr) {
    match x
    case StoreSrcRg(d) => d.space == Value && d.count == 2
    case StoreSrc(d) => d.space == Value && d.count == 4
    case StoreDst(d) => d.space == Value && d.count == 4
    case LoadSrc(s) => s.space == Value && s.count == 4
    case LoadDst(s) => s.space == Value && s.count == 4
    case InitLaneMasks => true
    case MaskOffReturnMask => true
    case MaskOffLoopMask => true
    case ReenableLoopMask(s) => s.space == Value && s.count == 1
    case Immediate(_) => true
    case LoadUnmasked(s) => s.space == Value && s.count == 1
    case StoreUnmasked(d) => d.space == Value && d.count == 1
    case StoreMasked(d) => d.space == Value && d.count == 1
    case _ => false
  }

  /** Appends one fixed-shape instruction; no stack cell is touched and no depth changes. */
  function AppendFixed(b: Builder, x: Instr): (r: Builder)
    requires Valid(b) && IsFixedShape(x)
    ensures Valid(r) && Appended(b, r)
    ensures Added(b, r) == [x] && r.depths == b.depths
    ensures forall i :: 0 <= i < |Operands(x)| ==> !Operands(x)[i].space.Temp?
  {
    Emit(b, [x], Depth(b))
  }

  /**
   * `set_current_stack(s)`: later stack operations use stack `s`; a stack never used before
   * starts empty. Nothing is emitted and no depth changes.
   */
  function SetCurrentStack(b: Builder, s: nat): (r: Builder)
    requires Valid(b)
    ensures Valid(r)
    ensures r.current == s && r.code == b.code && r.numLabels == b.numLabels
    ensures |r.depths| >= |b.depths|
    ensures forall t :: 0 <= t < |b.depths| ==> r.depths[t] == b.depths[t] && r.maxDepths[t] == b.maxDepths[t]
    ensures forall t :: |b.depths| <= t < |r.depths| ==> r.depths[t] == 0
  {
    if s < |b.depths| then b.(current := s)
    else
      var extra := seq(s + 1 - |b.depths|, _ => 0);
      var r := b.(current := s, depths := b.depths + extra, maxDepths := b.maxDepths + extra);
      forall i | 0 <= i < |r.code| ensures InstrFits(r.code[i], r.maxDepths, r.numLabels) {
        FitsRaised(b.code[i], b.maxDepths, b.maxDepths, b.numLabels, b.numLabels);
        assert InstrFits(b.code[i], b.maxDepths, b.numLabels);
        forall rg <- Operands(b.code[i]) ensures RangeFits(rg, r.maxDepths) {
          assert RangeFits(rg, b.maxDepths);
        }
      }
      r
  }

  // ---------------------------------------------------------------- pushes

  /** `push_literal_f/i/u`: one `copy_constant` writes the pattern into the next free cell. */
  function PushLiteral(b: Builder, bits: Bits32): (r: Builder)
    requires Valid(b)
    ensures Valid(r) && Appended(b, r)
    ensures Depth(r) == Depth(b) + 1
    ensures Added(b, r) == [CopyConstant(Cells(b, Depth(b), 1), bits)]
  {
    Emit(b, [CopyConstant(Cells(b, Depth(b), 1), bits)], Depth(b) + 1)
  }

  /** `push_uniform(src)`: copies the uniforms onto the next free cells, four at a time. */
  function PushUniform(b: Builder, src: SlotRange): (r: Builder)
    requires Valid(b)
    ensures Valid(r) && Appended(b, r)
    ensures Depth(r) == Depth(b) + src.count
    ensures IsChunked(Added(b, r), UniformChunk, Cells(b, Depth(b), src.count), UniformSlots(src))
  {
    var d := Depth(b) + src.count;
    var dst := Cells(b, Depth(b), src.count);
    var out := LowerChunked(UniformChunk, dst, UniformSlots(src));
    ChunksFit(out, UniformChunk, dst, UniformSlots(src), Raise(b.maxDepths, b.current, d), b.numLabels);
    Emit(b, out, d)
  }

  /** `push_slots(src)`: copies the value slots onto the next free cells, four at a time, unmasked. */
  function PushSlots(b: Builder, src: SlotRange): (r: Builder)
    requires Valid(b)
    ensures Valid(r) && Appended(b, r)
    ensures Depth(r) == Depth(b) + src.count
    ensures IsChunked(Added(b, r), CopyChunk(false), Cells(b, Depth(b), src.count), ValueSlots(src))
  {
    var d := Depth(b) + src.count;
    var dst := Cells(b, Depth(b), src.count);
    var out := LowerChunked(CopyChunk(false), dst, ValueSlots(src));
    ChunksFit(out, CopyChunk(false), dst, ValueSlots(src), Raise(b.maxDepths, b.current, d), b.numLabels);
    Emit(b, out, d)
  }

  /**
   * `duplicate(n)`: broadcasts the top cell into the next `n` cells, at most three new copies per
   * `swizzle` step.
   */
  function Duplicate(b: Builder, n: nat): (r: Builder)
    requires Valid(b) && Depth(b) >= 1
    ensures Valid(r) && Appended(b, r)
    ensures Depth(r) == Depth(b) + n
    ensures IsBroadcast(Added(b, r), Temp(b.current), Depth(b) - 1, n)
  {
    var d := Depth(b) + n;
    var out := LowerDuplicate(Temp(b.current), Depth(b) - 1, n);
    BroadcastFits(out, b.current, Depth(b) - 1, n, Raise(b.maxDepths, b.current, d), b.numLabels);
    Emit(b, out, d)
  }

  // ---------------------------------------------------------------- pops and copies

  /** `discard_stack(n)`: forgets the top `n` cells without emitting anything. */
  function DiscardStack(b: Builder, n: nat): (r: Builder)
    requires Valid(b) && n <= Depth(b)
    ensures Valid(r) && Appended(b, r)
    ensures Depth(r) + n == Depth(b) && r.code == b.code
  {
    Emit(b, [], Depth(b) - n)
  }

  /**
   * `copy_stack_to_slots(dst, offsetFromStackTop)` and its unmasked variant: copies the
   * `dst.count` cells that begin `offsetFromStackTop` cells below the top into `dst`, leaving
   * the stack as it was.
   */
  function CopyStackToSlots(b: Builder, masked: bool, dst: SlotRange, offsetFromStackTop: nat): (r: Builder)
    requires Valid(b)
    requires dst.count <= offsetFromStackTop <= Depth(b)
    ensures Valid(r) && Appended(b, r)
    ensures Depth(r) == Depth(b)
    ensures IsChunked(Added(b, r), CopyChunk(masked), ValueSlots(dst),
                      Cells(b, Depth(b) - offsetFromStackTop, dst.count))
  {
    var src := Cells(b, Depth(b) - offsetFromStackTop, dst.count);
    var out := LowerChunked(CopyChunk(masked), ValueSlots(dst), src);
    ChunksFit(out, CopyChunk(masked), ValueSlots(dst), src, Raise(b.maxDepths, b.current, Depth(b)), b.numLabels);
    Emit(b, out, Depth(b))
  }

  /** `pop_slots(dst)` (masked) and `pop_slots_unmasked(dst)`: copies the top cells into `dst`, then discards them. */
  function PopSlots(b: Builder, masked: bool, dst: SlotRange): (r: Builder)
    requires Valid(b) && dst.count <= Depth(b)
    ensures Valid(r) && Appended(b, r)
    ensures Depth(r) + dst.count == Depth(b)
    ensures IsChunked(Added(b, r), CopyChunk(masked), ValueSlots(dst), Cells(b, Depth(b) - dst.count, dst.count))
  {
    var src := Cells(b, Depth(b) - dst.count, dst.count);
    var d := Depth(b) - dst.count;
    var out := LowerChunked(CopyChunk(masked), ValueSlots(dst), src);
    ChunksFit(out, CopyChunk(masked), ValueSlots(dst), src, Raise(b.maxDepths, b.current, d), b.numLabels);
    Emit(b, out, d)
  }

  /** `copy_slots_masked(dst, src)` and `copy_slots_unmasked(dst, src)`: value slots to value slots, four at a time. */
  function CopySlotsBetween(b: Builder, masked: bool, dst: SlotRange, src: SlotRange): (r: Builder)
    requires Valid(b) && dst.count == src.count
    ensures Valid(r) && Appended(b, r)
    ensures r.depths == b.depths
    ensures IsChunked(Added(b, r), CopyChunk(masked), ValueSlots(dst), ValueSlots(src))
  {
    var out := LowerChunked(CopyChunk(masked), ValueSlots(dst), ValueSlots(src));
    ChunksFit(out, CopyChunk(masked), ValueSlots(dst), ValueSlots(src), Raise(b.maxDepths, b.current, Depth(b)), b.numLabels);
    Emit(b, out, Depth(b))
  }

  /**
   * `select(n)`: under the condition mask, the top `n` cells overwrite the `n` cells below them;
   * then the top `n` are discarded.
   */
  function Select(b: Builder, n: nat): (r: Builder)
    requires Valid(b) && 2 * n <= Depth(b)
    ensures Valid(r) && Appended(b, r)
    ensures Depth(r) + n == Depth(b)
    ensures IsChunked(Added(b, r), CopyChunk(true), Cells(b, Depth(b) - 2 * n, n), Cells(b, Depth(b) - n, n))
  {
    var dst := Cells(b, Depth(b) - 2 * n, n);
    var src := Cells(b, Depth(b) - n, n);
    var out := LowerChunked(CopyChunk(true), dst, src);
    ChunksFit(out, CopyChunk(true), dst, src, Raise(b.maxDepths, b.current, Depth(b) - n), b.numLabels);
    Emit(b, out, Depth(b) - n)
  }

  /**
   * `swizzle(consumedSlots, components)`: replaces the top `consumedSlots` cells by the chosen
   * components of them, so the stack shrinks or grows by the difference.
   */
  function ApplySwizzle(b: Builder, consumedSlots: nat, components: seq<nat>): (r: Builder)
    requires Valid(b)
    requires consumedSlots <= 4 && consumedSlots <= Depth(b)
    requires 1 <= |components| <= 4
    requires forall i :: 0 <= i < |components| ==> components[i] < consumedSlots
    ensures Valid(r) && Appended(b, r)
    ensures Depth(r) + consumedSlots == Depth(b) + |components|
    ensures Added(b, r) == [Swizzle(Cells(b, Depth(b) - consumedSlots, |components|), components)]
  {
    var start := Depth(b) - consumedSlots;
    var d := start + |components|;
    Emit(b, [Swizzle(Cells(b, start, |components|), components)], d)
  }

  // ---------------------------------------------------------------- arithmetic

  /**
   * `binary_op(op, n)`: combines the `n` cells below the top `n` with the top `n`, result in
   * the lower ones, then discards the top `n`. The arithmetic and comparison families are one
   * instruction of any width; the bitwise operations are split four at a time.
   */
  function ApplyBinary(b: Builder, op: BinaryOp, n: nat): (r: Builder)
    requires Valid(b) && IsBuilderOp(op)
    requires 1 <= n && 2 * n <= Depth(b)
    ensures Valid(r) && Appended(b, r)
    ensures Depth(r) + n == Depth(b)
    ensures op.NWay? ==> Added(b, r) == [Binary(op, Cells(b, Depth(b) - 2 * n, n), Cells(b, Depth(b) - n, n))]
    ensures op.Bitwise? ==>
      IsChunked(Added(b, r), BitwiseChunk(op.bit), Cells(b, Depth(b) - 2 * n, n), Cells(b, Depth(b) - n, n))
  {
    var dst := Cells(b, Depth(b) - 2 * n, n);
    var src := Cells(b, Depth(b) - n, n);
    var m := Raise(b.maxDepths, b.current, Depth(b) - n);
    var out := if op.NWay? then [Binary(op, dst, src)] else LowerChunked(BitwiseChunk(op.bit), dst, src);
    if op.NWay? then
      assert Operands(Binary(op, dst, src)) == [dst, src];
      assert Fits(out, m, b.numLabels);
      Emit(b, out, Depth(b) - n)
    else
      ChunksFit(out, BitwiseChunk(op.bit), dst, src, m, b.numLabels);
      Emit(b, out, Depth(b) - n)
  }

  /** `unary_op(bitwise_not, n)`: complements the top `n` cells in place, four at a time. */
  function ApplyUnary(b: Builder, op: UnaryOp, n: nat): (r: Builder)
    requires Valid(b) && n <= Depth(b)
    ensures Valid(r) && Appended(b, r)
    ensures r.depths == b.depths
    ensures IsChunked(Added(b, r), NotChunk, Cells(b, Depth(b) - n, n), Cells(b, Depth(b) - n, n))
  {
    var top := Cells(b, Depth(b) - n, n);
    var out := LowerChunked(NotChunk, top, top);
    ChunksFit(out, NotChunk, top, top, Raise(b.maxDepths, b.current, Depth(b)), b.numLabels);
    Emit(b, out, Depth(b))
  }

  // ---------------------------------------------------------------- execution masks

  /** `push_condition_mask()`, `push_loop_mask()`, `push_return_mask()`: saves the mask in the next free cell. */
  function PushMask(b: Builder, mask: MaskKind): (r: Builder)
    requires Valid(b)
    ensures Valid(r) && Appended(b, r)
    ensures Depth(r) == Depth(b) + 1
    ensures Added(b, r) == [StoreMask(mask, Cells(b, Depth(b), 1))]
  {
    Emit(b, [StoreMask(mask, Cells(b, Depth(b), 1))], Depth(b) + 1)
  }

  /** `pop_condition_mask()` and friends: restores the mask from the top cell and discards it. */
  function PopMask(b: Builder, mask: MaskKind): (r: Builder)
    requires Valid(b) && Depth(b) >= 1
    ensures Valid(r) && Appended(b, r)
    ensures Depth(r) + 1 == Depth(b)
    ensures Added(b, r) == [LoadMask(mask, Cells(b, Depth(r), 1))]
  {
    Emit(b, [LoadMask(mask, Cells(b, Depth(b) - 1, 1))], Depth(b) - 1)
  }

  /** `merge_condition_mask()`: the condition mask becomes the AND of the top two cells, which stay. */
  function MergeCondition(b: Builder): (r: Builder)
    requires Valid(b) && Depth(b) >= 2
    ensures Valid(r) && Appended(b, r)
    ensures r.depths == b.depths
    ensures Added(b, r) == [MergeConditionMask(Cells(b, Depth(b) - 2, 2))]
  {
    Emit(b, [MergeConditionMask(Cells(b, Depth(b) - 2, 2))], Depth(b))
  }

  /** `merge_loop_mask()`: the loop mask is ANDed with the top cell, which stays. */
  function MergeLoop(b: Builder): (r: Builder)
    requires Valid(b) && Depth(b) >= 1
    ensures Valid(r) && Appended(b, r)
    ensures r.depths == b.depths
    ensures Added(b, r) == [MergeLoopMask(Cells(b, Depth(b) - 1, 1))]
  {
    Emit(b, [MergeLoopMask(Cells(b, Depth(b) - 1, 1))], Depth(b))
  }

  // ---------------------------------------------------------------- control flow

  /** `nextLabelID()`: a label ID that no `label()` call has bound yet. */
  function NextLabelId(b: Builder): (r: (Builder, nat))
    requires Valid(b)
    ensures Valid(r.0)
    ensures r.1 !in LabelsIn(b.code) && r.0.code == b.code && r.1 < r.0.numLabels
    ensures r.1 == b.numLabels && r.0 == b.(numLabels := b.numLabels + 1)
  {
    var r := b.(numLabels := b.numLabels + 1);
    forall i | 0 <= i < |r.code| ensures InstrFits(r.code[i], r.maxDepths, r.numLabels) {
      FitsRaised(b.code[i], b.maxDepths, b.maxDepths, b.numLabels, r.numLabels);
    }
    assert forall i :: 0 <= i < |b.code| && b.code[i].Label? ==> b.code[i].labelId < b.numLabels by {
      forall i | 0 <= i < |b.code| && b.code[i].Label? ensures b.code[i].labelId < b.numLabels {
        assert InstrFits(b.code[i], b.maxDepths, b.numLabels);
      }
    }
    (r, b.numLabels)
  }

  /** `label(id)`: binds a handed-out, not yet bound label to the current position. */
  function BindLabel(b: Builder, id: nat): (r: Builder)
    requires Valid(b) && id < b.numLabels && id !in LabelsIn(b.code)
    ensures Valid(r) && Appended(b, r) && r.depths == b.depths
    ensures Added(b, r) == [Label(id)]
    ensures LabelsIn(r.code) == LabelsIn(b.code) + {id}
  {
    var r := b.(code := b.code + [Label(id)]);
    LabelsInSnoc(b.code, Label(id));
    BoundOnceSnocLabel(b.code, id);
    forall i | 0 <= i < |r.code| ensures InstrFits(r.code[i], r.maxDepths, r.numLabels) {
      if i < |b.code| {
        assert r.code[i] == b.code[i];
      }
    }
    assert r.code[..|b.code|] == b.code;
    assert r.code[|b.code|..] == [Label(id)];
    r
  }

  lemma BoundOnceSnocLabel(code: seq<Instr>, id: nat)
    requires BoundOnce(code) && id !in LabelsIn(code)
    ensures BoundOnce(code + [Label(id)])
  {
    var c := code + [Label(id)];
    forall i | 0 <= i < |code| && code[i].Label? ensures code[i].labelId != id {
      assert code[i].labelId in LabelsIn(code);
    }
    assert forall i :: 0 <= i < |code| ==> c[i] == code[i];
  }

  /** `jump(id)`, `branch_if_any_active_lanes(id)`, `branch_if_no_active_lanes(id)`. */
  function AddBranch(b: Builder, kind: BranchKind, id: nat): (r: Builder)
    requires Valid(b) && id < b.numLabels
    ensures Valid(r) && Appended(b, r) && r.depths == b.depths
    ensures Added(b, r) == [BranchTo(kind, id)]
  {
    Emit(b, [BranchTo(kind, id)], Depth(b))
  }
}
