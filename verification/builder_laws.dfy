/** Laws relating several builder calls: what one call writes, a later call reads back. */
module BuilderLaws {
  import opened Slots
  import opened Opcodes
  import opened Literals
  import opened Instructions
  import opened RasterBuilder

  /** The chunks of a decomposition cover every slot of `dst` exactly once, in order. */
  lemma ChunkCovers(out: seq<Instr>, kind: ChunkKind, dst: Range, src: Range, offset: nat)
    requires IsChunked(out, kind, dst, src)
    requires offset < dst.count
    ensures offset / 4 < |out|
    ensures var w := ChunkWidth(dst.count, offset / 4);
      4 * (offset / 4) <= offset < 4 * (offset / 4) + w
    ensures forall i :: 0 <= i < |out| && i != offset / 4 ==>
      !(4 * i <= offset < 4 * i + ChunkWidth(dst.count, i))
  {
    forall i | 0 <= i < |out| && i != offset / 4
      ensures !(4 * i <= offset < 4 * i + ChunkWidth(dst.count, i))
    {
      assert ChunkWidth(dst.count, i) <= 4;
    }
  }

  /**
   * A mask pushed and then popped is restored from the very cell it was saved to, and the
   * stack is back at its old depth.
   */
  lemma MaskPushPop(b: Builder, mask: MaskKind)
    requires Valid(b)
    ensures var b1 := PushMask(b, mask);
      var b2 := PopMask(b1, mask);
      && Depth(b2) == Depth(b)
      && Added(b, b1)[0].dst == Added(b1, b2)[0].src
      && Added(b, b1)[0].dst.space == Temp(b.current)
  {
  }

  /**
   * Masks nest: after pushing `outer` and then `inner`, popping `inner` reads the second cell
   * and popping `outer` the first.
   */
  lemma MasksNest(b: Builder, outer: MaskKind, inner: MaskKind)
    requires Valid(b)
    ensures var b1 := PushMask(b, outer);
      var b2 := PushMask(b1, inner);
      var b3 := PopMask(b2, inner);
      var b4 := PopMask(b3, outer);
      && Added(b2, b3)[0].src == Added(b1, b2)[0].dst
      && Added(b3, b4)[0].src == Added(b, b1)[0].dst
      && Added(b, b1)[0].dst != Added(b1, b2)[0].dst
      && Depth(b4) == Depth(b)
  {
  }

  /** Chunk `i` of `second` reads exactly the cells chunk `i` of `first` wrote, and writes into `space`. */
  ghost predicate ReadsBack(first: seq<Instr>, second: seq<Instr>, space: Space) {
    && |first| == |second|
    && forall i :: 0 <= i < |first| ==>
         && first[i].CopySlots? && second[i].CopySlots?
         && second[i].src == first[i].dst && second[i].dst.space == space
  }

  /** Two copy decompositions chained through the same range `mid` read back what was written. */
  lemma CopiesChain(first: seq<Instr>, second: seq<Instr>, m1: bool, m2: bool,
                    src: Range, mid: Range, mid': Range, dst: Range)
    requires src.count == mid.count == dst.count && mid' == mid
    requires IsChunked(first, CopyChunk(m1), mid, src)
    requires IsChunked(second, CopyChunk(m2), dst, mid')
    ensures ReadsBack(first, second, dst.space)
  {
    forall i | 0 <= i < |first|
      ensures first[i].CopySlots? && second[i].CopySlots?
      ensures second[i].src == first[i].dst && second[i].dst.space == dst.space
    {
      var w := ChunkWidth(mid.count, i);
      assert first[i] == CopySlots(m1, Slice(mid, 4 * i, w), Slice(src, 4 * i, w));
      assert second[i] == CopySlots(m2, Slice(dst, 4 * i, w), Slice(mid, 4 * i, w));
    }
  }

  /**
   * Values pushed with `push_slots` and popped with `pop_slots` travel through the same cells:
   * chunk `i` of the pop reads exactly what chunk `i` of the push wrote, into value slots, and
   * the depth returns to where it was.
   */
  lemma PushPopSlots(b: Builder, src: SlotRange, dst: SlotRange, masked: bool)
    requires Valid(b) && src.count == dst.count
    ensures var b1 := PushSlots(b, src);
      var b2 := PopSlots(b1, masked, dst);
      Depth(b2) == Depth(b) && ReadsBack(Added(b, b1), Added(b1, b2), Value)
  {
    var b1 := PushSlots(b, src);
    var b2 := PopSlots(b1, masked, dst);
    var cells := Cells(b, Depth(b), src.count);
    var cells' := Cells(b1, Depth(b1) - dst.count, dst.count);
    var first := LowerChunked(CopyChunk(false), cells, ValueSlots(src));
    var second := LowerChunked(CopyChunk(masked), ValueSlots(dst), cells');
    CopiesChain(first, second, false, masked, ValueSlots(src), cells, cells', ValueSlots(dst));
  }

  /** After `discard_stack(n)` the next push reuses the first discarded cell. */
  lemma DiscardThenPushReuses(b: Builder, n: nat, bits: Bits32)
    requires Valid(b) && n <= Depth(b)
    ensures var b2 := PushLiteral(DiscardStack(b, n), bits);
      && Added(b, b2) == [CopyConstant(Range(Temp(b.current), Depth(b) - n, 1), bits)]
      && Depth(b2) == Depth(b) - n + 1
  {
    var b1 := DiscardStack(b, n);
    assert Added(b, b1) == [];
    var b2 := PushLiteral(b1, bits);
    assert b2.code == b.code + Added(b1, b2);
  }

  /**
   * Stacks are independent: switching to another stack and back leaves the original stack's
   * depth alone, whatever was pushed on the other stack in between.
   */
  lemma StackSwitchKeepsDepth(b: Builder, s: nat, bits: Bits32)
    requires Valid(b) && s != b.current
    ensures var b1 := SetCurrentStack(b, s);
      var b2 := PushLiteral(b1, bits);
      var b3 := SetCurrentStack(b2, b.current);
      && Depth(b3) == Depth(b)
      && Depth(b2) == (if s < |b.depths| then b.depths[s] else 0) + 1
  {
  }

  /**
   * `duplicate(n)` writes every one of the `n` cells above the top: cell `top + 1 + c` is
   * written by broadcast step `c / 3`.
   */
  lemma DuplicateFillsCells(b: Builder, n: nat, c: nat)
    requires Valid(b) && Depth(b) >= 1 && c < n
    ensures var out := Added(b, Duplicate(b, n));
      && c / 3 < |out|
      && var step := out[c / 3].dst;
         step.start < Depth(b) + c < step.start + step.count
  {
    var out := Added(b, Duplicate(b, n));
    var top := Depth(b) - 1;
    var i := c / 3;
    assert 3 * i < n;
    assert out[i] == Swizzle(Range(Temp(b.current), top + 3 * i, DupWidth(n, i) + 1), Zeros(DupWidth(n, i) + 1));
  }
}
