/**
 * Two listings from the builder's unit tests worked through the model: the branch program, whose
 * offsets and rewinds come out of label resolution, and the temporary-stack program, whose cells
 * come out of the per-stack depths and the relocation at `finish()`.
 */
module Listings {
  import opened Results
  import opened Slots
  import opened Literals
  import opened Opcodes
  import opened Instructions
  import opened Labels
  import opened RasterBuilder
  import opened Programs

  // ---------------------------------------------------------------- branches

  /**
   * A jump forward to label 2, a conditional branch back to label 1 and an unconditional-looking
   * branch back to label 0, around three immediates.
   */
  function BranchesCode(): seq<Instr> {
    [BranchTo(Jump, 2), Label(0), Immediate(0x3F80_0000), Label(1), Immediate(0x4000_0000),
     BranchTo(BranchIfNoActiveLanes, 1), Label(2), Immediate(0x4040_0000),
     BranchTo(BranchIfAnyActiveLanes, 0)]
  }

  /** Where the first pass puts things: which branches go backward and where each label lands. */
  lemma BranchesLaidOut()
    ensures var code := BranchesCode();
      && Resolvable(code)
      && !IsBackward(code, 0) && IsBackward(code, 5) && IsBackward(code, 8)
      && OutLen(code, 5) == 3 && OutLen(code, 8) == 6 && OutLen(code, 9) == 8
      && AllPositions(code) == map[0 := 1, 1 := 2, 2 := 5]
  {
    var code := BranchesCode();
    assert code[1].Label? && code[3].Label? && code[6].Label?;
    assert 1 in LabelsBefore(code, 5);
    assert 0 in LabelsBefore(code, 8);
    assert OutLen(code, 9) == 8;
    assert Positions(code, 9) == map[0 := 1, 1 := 2, 2 := 5];
  }

  /** The eight instructions the test lists for the branch program. */
  function BranchesOutput(): seq<Instr> {
    [Branch(Jump, 5), Immediate(0x3F80_0000), Immediate(0x4000_0000),
     StackRewind, Branch(BranchIfNoActiveLanes, -2), Immediate(0x4040_0000),
     StackRewind, Branch(BranchIfAnyActiveLanes, -6)]
  }

  /**
   * The labels vanish, the forward jump lands five instructions on, and each backward branch gets
   * a rewind in front of it and an offset counted from the branch itself.
   */
  lemma BranchesListing()
    ensures Resolvable(BranchesCode())
    ensures Resolve(BranchesCode()) == BranchesOutput()
  {
    var code := BranchesCode();
    BranchesLaidOut();
    var m := AllPositions(code);
    assert ResolveUpTo(code, m, 1) == [Branch(Jump, 5)];
    assert ResolveUpTo(code, m, 5) == [Branch(Jump, 5), Immediate(0x3F80_0000), Immediate(0x4000_0000)];
    assert ResolveUpTo(code, m, 8) == [Branch(Jump, 5), Immediate(0x3F80_0000), Immediate(0x4000_0000),
      StackRewind, Branch(BranchIfNoActiveLanes, -2), Immediate(0x4040_0000)];
  }

  /** The one stack, empty, with three labels handed out, the given code and the given labels bound. */
  predicate BranchState(b: Builder, code: seq<Instr>, bound: set<nat>) {
    && Valid(b) && b.code == code && LabelsIn(code) == bound
    && b.current == 0 && b.numLabels == 3 && b.depths == [0] && b.maxDepths == [0]
  }

  lemma BranchOnto(b: Builder, kind: BranchKind, id: nat)
    requires Valid(b) && id < b.numLabels
    ensures AddBranch(b, kind, id) == b.(code := b.code + [BranchTo(kind, id)])
    ensures LabelsIn(b.code + [BranchTo(kind, id)]) == LabelsIn(b.code)
  {
    LabelsInSnoc(b.code, BranchTo(kind, id));
  }

  lemma ImmediateOnto(b: Builder, bits: Bits32)
    requires Valid(b)
    ensures AppendFixed(b, Immediate(bits)) == b.(code := b.code + [Immediate(bits)])
    ensures LabelsIn(b.code + [Immediate(bits)]) == LabelsIn(b.code)
  {
    LabelsInSnoc(b.code, Immediate(bits));
  }

  /** Hand out the three labels: they come out as 0, 1 and 2. */
  method BranchesLabels() returns (b: Builder, label1: nat, label2: nat, label3: nat)
    ensures label1 == 0 && label2 == 1 && label3 == 2
    ensures BranchState(b, [], {})
  {
    var r := NextLabelId(NewBuilder());
    b, label1 := r.0, r.1;
    r := NextLabelId(b);
    b, label2 := r.0, r.1;
    r := NextLabelId(b);
    b, label3 := r.0, r.1;
  }

  /** Jump to the third label, bind the first, and load 1.0. */
  method BranchesForward(b0: Builder) returns (b: Builder)
    requires BranchState(b0, [], {})
    ensures BranchState(b, BranchesCode()[..3], {0})
  {
    BranchOnto(b0, Jump, 2);
    b := AddBranch(b0, Jump, 2);
    b := BindLabel(b, 0);
    ImmediateOnto(b, 0x3F80_0000);
    b := AppendFixed(b, Immediate(0x3F80_0000));
  }

  /** Bind the second label, load 2.0, and branch back to the second label when no lane is active. */
  method BranchesMiddle(b0: Builder) returns (b: Builder)
    requires BranchState(b0, BranchesCode()[..3], {0})
    ensures BranchState(b, BranchesCode()[..6], {0, 1})
  {
    b := BindLabel(b0, 1);
    ImmediateOnto(b, 0x4000_0000);
    b := AppendFixed(b, Immediate(0x4000_0000));
    BranchOnto(b, BranchIfNoActiveLanes, 1);
    b := AddBranch(b, BranchIfNoActiveLanes, 1);
  }

  /** Bind the third label, load 3.0, and branch back to the first label when any lane is active. */
  method BranchesBackward(b0: Builder) returns (b: Builder)
    requires BranchState(b0, BranchesCode()[..6], {0, 1})
    ensures BranchState(b, BranchesCode(), {0, 1, 2})
  {
    b := BindLabel(b0, 2);
    ImmediateOnto(b, 0x4040_0000);
    b := AppendFixed(b, Immediate(0x4040_0000));
    BranchOnto(b, BranchIfAnyActiveLanes, 0);
    b := AddBranch(b, BranchIfAnyActiveLanes, 0);
  }

  /** Code whose every instruction names no slot and no cell. */
  predicate NoOperands(code: seq<Instr>) {
    forall i :: 0 <= i < |code| ==> code[i].Immediate? || code[i].Branch? || code[i].StackRewind?
  }

  /** Relocation leaves such code alone, whatever the stack sizes. */
  lemma RelocateNoOperands(m: seq<nat>, code: seq<Instr>)
    requires NoOperands(code)
    ensures Relocate(m, code) == code
  {
    forall i | 0 <= i < |code| ensures Relocate(m, code)[i] == code[i] {
      assert code[i].Immediate? || code[i].Branch? || code[i].StackRewind?;
    }
  }

  /** The resolved branch program names no cell, so laying out the stacks leaves it as it is. */
  lemma BranchesRelocated(m: seq<nat>)
    ensures Relocate(m, BranchesOutput()) == BranchesOutput()
  {
    var out := BranchesOutput();
    assert NoOperands(out) by {
      forall i | 0 <= i < |out| ensures out[i].Immediate? || out[i].Branch? || out[i].StackRewind? {
      }
    }
    RelocateNoOperands(m, out);
  }

  /** The branch program names no slot, so any declared slot counts cover it. */
  lemma BranchesDeclared(nv: nat, nu: nat)
    ensures SlotsDeclared(BranchesCode(), nv, nu)
  {
    var code := BranchesCode();
    forall i | 0 <= i < |code| ensures Operands(code[i]) == [] {
    }
  }

  /** A builder with nothing on its stacks and every branch bound finishes to its code resolved and laid out. */
  lemma FinishResolvable(b: Builder, nv: nat, nu: nat)
    requires Valid(b) && Balanced(b) && Resolvable(b.code) && SlotsDeclared(b.code, nv, nu)
    ensures Finish(b, nv, nu) ==
      Ok(Program(Relocate(b.maxDepths, Resolve(b.code)), nv, nu, Base(b.maxDepths, |b.maxDepths|)))
  {
  }

  /** Finishing the branch program with one value slot gives exactly the listed eight instructions. */
  lemma FinishBranches(b: Builder)
    requires BranchState(b, BranchesCode(), {0, 1, 2})
    ensures Finish(b, 1, 0) == Ok(Program(BranchesOutput(), 1, 0, 0))
  {
    BranchesListing();
    BranchesDeclared(1, 0);
    assert Balanced(b);
    FinishResolvable(b, 1, 0);
    BranchesRelocated(b.maxDepths);
  }

  /**
   * The whole branch test: three labels handed out in order, a forward jump, two backward
   * branches, and `finish()` resolving them to the listed offsets and rewinds.
   */
  method Branches() returns (p: Result<Program>)
    ensures p == Ok(Program(BranchesOutput(), 1, 0, 0))
  {
    var b, label1, label2, label3 := BranchesLabels();
    b := BranchesForward(b);
    b := BranchesMiddle(b);
    b := BranchesBackward(b);
    FinishBranches(b);
    p := Finish(b, 1, 0);
  }

  // ---------------------------------------------------------------- temporary stacks

  /** One cell of stack `s`, as the builder addresses it. */
  function StackCell(s: nat, i: nat): Range {
    Range(Temp(s), i, 1)
  }

  /** One cell of the finished program's flat cell space. */
  function FlatCell(i: nat): Range {
    Range(Cell, i, 1)
  }

  lemma StartOn(s: nat)
    ensures SetCurrentStack(NewBuilder(), s) == Builder([], s, seq(s + 1, _ => 0), seq(s + 1, _ => 0), 0)
  {
  }

  lemma SwitchTo(b: Builder, s: nat)
    requires Valid(b) && s < |b.depths|
    ensures SetCurrentStack(b, s) == b.(current := s)
  {
  }

  lemma PushOnto(b: Builder, bits: Bits32)
    requires Valid(b)
    ensures var r := PushLiteral(b, bits);
      && r.code == b.code + [CopyConstant(StackCell(b.current, Depth(b)), bits)]
      && r.current == b.current
      && r.depths == b.depths[b.current := Depth(b) + 1]
      && r.maxDepths == Raise(b.maxDepths, b.current, Depth(b) + 1)
  {
  }

  lemma DiscardFrom(b: Builder, n: nat)
    requires Valid(b) && n <= Depth(b)
    ensures var r := DiscardStack(b, n);
      && r.code == b.code && r.current == b.current
      && r.depths == b.depths[b.current := Depth(b) - n] && r.maxDepths == b.maxDepths
  {
  }

  /** A valid builder over two stacks with the given code, current stack, depths and high-water marks. */
  predicate TwoStacks(b: Builder, code: seq<Instr>, current: nat, d0: nat, d1: nat, m0: nat, m1: nat) {
    && Valid(b) && b.code == code && b.current == current
    && |b.depths| == 2 && b.depths[0] == d0 && b.depths[1] == d1
    && |b.maxDepths| == 2 && b.maxDepths[0] == m0 && b.maxDepths[1] == m1
  }

  /** The five literals, each written into the next free cell of whichever stack was current. */
  function TempImmediatesCode(): seq<Instr> {
    [CopyConstant(StackCell(1, 0), 0x3E7), CopyConstant(StackCell(0, 0), 0x4158_0000),
     CopyConstant(StackCell(0, 1), 0xFFFF_FF0A), CopyConstant(StackCell(0, 1), 0x165),
     CopyConstant(StackCell(1, 1), 0x3E7)]
  }

  /** The same literals after `finish()`: stack 0 owns cells 0 and 1, stack 1 owns cells 2 and 3. */
  function TempImmediatesOutput(): seq<Instr> {
    [CopyConstant(FlatCell(2), 0x3E7), CopyConstant(FlatCell(0), 0x4158_0000),
     CopyConstant(FlatCell(1), 0xFFFF_FF0A), CopyConstant(FlatCell(1), 0x165),
     CopyConstant(FlatCell(3), 0x3E7)]
  }

  /** Switch to stack 1 and push the integer 999 there. */
  method TempImmediatesOnStackOne() returns (b: Builder)
    ensures TwoStacks(b, TempImmediatesCode()[..1], 1, 0, 1, 0, 1)
  {
    StartOn(1);
    b := SetCurrentStack(NewBuilder(), 1);
    PushOnto(b, IntBits(999));
    b := PushLiteral(b, IntBits(999));
  }

  /** Back on stack 0, push the float 13.5 and the integer -246. */
  method TempImmediatesOnStackZero(b0: Builder) returns (b: Builder)
    requires TwoStacks(b0, TempImmediatesCode()[..1], 1, 0, 1, 0, 1)
    ensures TwoStacks(b, TempImmediatesCode()[..3], 0, 2, 1, 2, 1)
  {
    SwitchTo(b0, 0);
    b := SetCurrentStack(b0, 0);
    PushOnto(b, 0x4158_0000);
    b := PushLiteral(b, 0x4158_0000);
    PushOnto(b, IntBits(-246));
    b := PushLiteral(b, IntBits(-246));
  }

  /**
   * Discard the top of stack 0 and push the unsigned 357 into the cell it freed; then push 999 on
   * stack 1 again.
   */
  method TempImmediatesReuse(b0: Builder) returns (b: Builder)
    requires TwoStacks(b0, TempImmediatesCode()[..3], 0, 2, 1, 2, 1)
    ensures TwoStacks(b, TempImmediatesCode(), 1, 2, 2, 2, 2)
  {
    DiscardFrom(b0, 1);
    b := DiscardStack(b0, 1);
    PushOnto(b, UIntBits(357));
    b := PushLiteral(b, UIntBits(357));
    SwitchTo(b, 1);
    b := SetCurrentStack(b, 1);
    PushOnto(b, IntBits(999));
    b := PushLiteral(b, IntBits(999));
  }

  /** Empty stack 1, then stack 0, two cells each. */
  method TempImmediatesBalance(b0: Builder) returns (b: Builder)
    requires TwoStacks(b0, TempImmediatesCode(), 1, 2, 2, 2, 2)
    ensures TwoStacks(b, TempImmediatesCode(), 0, 0, 0, 2, 2)
  {
    DiscardFrom(b0, 2);
    b := DiscardStack(b0, 2);
    SwitchTo(b, 0);
    b := SetCurrentStack(b, 0);
    DiscardFrom(b, 2);
    b := DiscardStack(b, 2);
  }

  /** Code made only of `copy_constant` into stack cells. */
  predicate StackConstants(code: seq<Instr>) {
    forall i :: 0 <= i < |code| ==> code[i].CopyConstant? && code[i].dst.space.Temp?
  }

  lemma StackConstantsDeclared(code: seq<Instr>, nv: nat, nu: nat)
    requires StackConstants(code)
    ensures StraightLine(code) && SlotsDeclared(code, nv, nu)
  {
    forall i | 0 <= i < |code| ensures Operands(code[i]) == [code[i].dst] {
    }
  }

  lemma MapConstant(d: Range, v: Bits32, f: Range -> Range)
    ensures MapOperands(CopyConstant(d, v), f) == CopyConstant(f(d), v)
  {
  }

  /** Where relocation sends a `copy_constant` into a stack cell: past every lower stack's cells. */
  function RelocatedConstant(m: seq<nat>, x: Instr): Instr
    requires x.CopyConstant? && x.dst.space.Temp? && x.dst.space.stack < |m|
  {
    CopyConstant(Range(Cell, Base(m, x.dst.space.stack) + x.dst.start, x.dst.count), x.bits)
  }

  lemma RelocateStackConstants(m: seq<nat>, code: seq<Instr>, out: seq<Instr>)
    requires StackConstants(code) && |out| == |code|
    requires forall i :: 0 <= i < |code| ==> code[i].dst.space.stack < |m| && out[i] == RelocatedConstant(m, code[i])
    ensures Relocate(m, code) == out
  {
    forall i | 0 <= i < |code| ensures Relocate(m, code)[i] == out[i] {
      MapConstant(code[i].dst, code[i].bits, r => RelocateRange(m, r));
    }
  }

  lemma TempImmediatesRelocated(m: seq<nat>)
    requires |m| == 2 && m[0] == 2 && m[1] == 2
    ensures Base(m, |m|) == 4
    ensures Relocate(m, TempImmediatesCode()) == TempImmediatesOutput()
  {
    var code, out := TempImmediatesCode(), TempImmediatesOutput();
    assert Base(m, 0) == 0 && Base(m, 1) == 2;
    forall i | 0 <= i < |code| ensures code[i].dst.space.stack < |m| && out[i] == RelocatedConstant(m, code[i]) {
      if i == 0 {
      } else if i == 1 {
      } else if i == 2 {
      } else if i == 3 {
      } else {
      }
    }
    RelocateStackConstants(m, code, out);
  }

  /** Finishing the balanced state lays stack 1's two cells after stack 0's two. */
  lemma FinishTempImmediates(b: Builder)
    requires TwoStacks(b, TempImmediatesCode(), 0, 0, 0, 2, 2)
    ensures Finish(b, 1, 0) == Ok(Program(TempImmediatesOutput(), 1, 0, 4))
  {
    StackConstantsDeclared(b.code, 1, 0);
    FinishStraightLine(b, 1, 0);
    TempImmediatesRelocated(b.maxDepths);
  }

  /**
   * The whole temporary-stack test: the cell a discard frees is the one the next push writes, and
   * each stack's cells keep their own place in the finished program.
   */
  method TempImmediates() returns (p: Result<Program>)
    ensures p == Ok(Program(TempImmediatesOutput(), 1, 0, 4))
  {
    var b := TempImmediatesOnStackOne();
    b := TempImmediatesOnStackZero(b);
    b := TempImmediatesReuse(b);
    b := TempImmediatesBalance(b);
    FinishTempImmediates(b);
    p := Finish(b, 1, 0);
  }
}
