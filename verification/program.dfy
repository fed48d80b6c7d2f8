/**
 * `finish()`: checks that the built code is complete, resolves labels, and lays the temporary
 * stacks out one after another in a single flat cell space.
 */
module Programs {
  import opened Results
  import opened Slots
  import opened Instructions
  import opened Labels
  import opened RasterBuilder

  /** A finished program: resolved code over value slots, uniform slots and `numCells` stack cells. */
  datatype Program = Program(code: seq<Instr>, numValueSlots: nat, numUniformSlots: nat, numCells: nat)

  /** Where stack `s` starts in the flat cell space: after every lower-numbered stack's high-water mark. */
  function Base(maxDepths: seq<nat>, s: nat): nat
    requires s <= |maxDepths|
  {
    if s == 0 then 0 else Base(maxDepths, s - 1) + maxDepths[s - 1]
  }

  lemma {:induction false} BaseMonotone(maxDepths: seq<nat>, s: nat, t: nat)
    requires s <= t <= |maxDepths|
    ensures Base(maxDepths, s) <= Base(maxDepths, t)
    decreases t - s
  {
    if s < t {
      BaseMonotone(maxDepths, s, t - 1);
    }
  }

  /**
   * The stacks get disjoint cells: every cell of a lower-numbered stack lies below every cell of
   * a higher-numbered one, and all of them lie below the total.
   */
  lemma StacksDisjoint(maxDepths: seq<nat>, s: nat, t: nat, i: nat, j: nat)
    requires s < t < |maxDepths|
    requires i < maxDepths[s] && j < maxDepths[t]
    ensures Base(maxDepths, s) + i < Base(maxDepths, t) + j
    ensures Base(maxDepths, t) + j < Base(maxDepths, |maxDepths|)
  {
    BaseMonotone(maxDepths, s + 1, t);
    BaseMonotone(maxDepths, t + 1, |maxDepths|);
  }

  /** Moves a stack-relative range to its place in the flat cell space. */
  function RelocateRange(maxDepths: seq<nat>, r: Range): Range {
    match r.space
    case Temp(s) => if s < |maxDepths| then Range(Cell, Base(maxDepths, s) + r.start, r.count) else r
    case _ => r
  }

  function Relocate(maxDepths: seq<nat>, code: seq<Instr>): (out: seq<Instr>)
    ensures |out| == |code|
  {
    seq(|code|, i requires 0 <= i < |code| => MapOperands(code[i], r => RelocateRange(maxDepths, r)))
  }

  /** Every stack is empty again. */
  predicate Balanced(b: Builder) {
    forall s :: 0 <= s < |b.depths| ==> b.depths[s] == 0
  }

  /** Every value and uniform range lies inside the slots the program declares. */
  predicate SlotsDeclared(code: seq<Instr>, numValueSlots: nat, numUniformSlots: nat) {
    forall i :: 0 <= i < |code| ==>
      forall r <- Operands(code[i]) ::
        (r.space == Value ==> r.start + r.count <= numValueSlots)
        && (r.space == Uniform ==> r.start + r.count <= numUniformSlots)
  }

  /** The lowest-numbered stack from `s` on that still holds cells. */
  function FirstUnbalanced(depths: seq<nat>, s: nat): (r: Option<nat>)
    requires s <= |depths|
    ensures r.None? <==> forall t :: s <= t < |depths| ==> depths[t] == 0
    ensures r.Some? ==> (s <= r.value < |depths| && depths[r.value] != 0
      && forall t :: s <= t < r.value ==> depths[t] == 0)
    decreases |depths| - s
  {
    if s == |depths| then None
    else if depths[s] != 0 then Some(s)
    else FirstUnbalanced(depths, s + 1)
  }

  /** The label of the first branch from `k` on whose label is never bound. */
  function FirstUnbound(code: seq<Instr>, k: nat): (r: Option<nat>)
    requires k <= |code|
    ensures r.None? <==> forall i :: k <= i < |code| && code[i].BranchTo? ==> code[i].labelId in LabelsIn(code)
    ensures r.Some? ==> (r.value !in LabelsIn(code)
      && exists i :: k <= i < |code| && code[i].BranchTo? && code[i].labelId == r.value)
    decreases |code| - k
  {
    if k == |code| then None
    else if code[k].BranchTo? && code[k].labelId !in LabelsIn(code) then Some(code[k].labelId)
    else FirstUnbound(code, k + 1)
  }

  /**
   * `finish(numValueSlots, numUniformSlots)`: the program, or the first problem found: a stack
   * left holding cells (lowest stack first), a branch to a label never bound, or a slot outside
   * the declared counts.
   */
  function Finish(b: Builder, numValueSlots: nat, numUniformSlots: nat): (r: Result<Program>)
    requires Valid(b)
    ensures r.Ok? <==> Balanced(b) && Resolvable(b.code) && SlotsDeclared(b.code, numValueSlots, numUniformSlots)
    ensures r.Err? && r.fault.UnbalancedStack? ==>
      r.fault.stack < |b.depths| && b.depths[r.fault.stack] != 0
    ensures r.Err? && r.fault.UnboundLabel? ==> Balanced(b) && r.fault.labelId !in LabelsIn(b.code)
    ensures r.Err? && r.fault.SlotOutOfRange? ==> Balanced(b) && Resolvable(b.code)
    ensures r.Ok? ==> (r.value.numValueSlots == numValueSlots && r.value.numUniformSlots == numUniformSlots
      && r.value.numCells == Base(b.maxDepths, |b.maxDepths|))
  {
    match FirstUnbalanced(b.depths, 0)
    case Some(s) => Err(UnbalancedStack(s))
    case None =>
      match FirstUnbound(b.code, 0)
      case Some(id) => Err(UnboundLabel(id))
      case None =>
        if !SlotsDeclared(b.code, numValueSlots, numUniformSlots) then Err(SlotOutOfRange)
        else
          var code := Relocate(b.maxDepths, Resolve(b.code));
          Ok(Program(code, numValueSlots, numUniformSlots, Base(b.maxDepths, |b.maxDepths|)))
  }

  /** Without labels and branches, finishing a balanced builder only lays its stacks out flat. */
  lemma FinishStraightLine(b: Builder, nv: nat, nu: nat)
    requires Valid(b) && Balanced(b) && StraightLine(b.code) && SlotsDeclared(b.code, nv, nu)
    ensures Finish(b, nv, nu) == Ok(Program(Relocate(b.maxDepths, b.code), nv, nu, Base(b.maxDepths, |b.maxDepths|)))
  {
    StraightLineUnchanged(b.code);
  }

  /** Each resolved instruction is either operand-free or an instruction the builder appended. */
  lemma ResolvedFrom(code: seq<Instr>, k: nat) returns (kk: nat)
    requires Resolvable(code)
    requires k < |Resolve(code)|
    ensures kk < |code|
    ensures Operands(Resolve(code)[k]) == [] || Resolve(code)[k] == code[kk]
  {
    var t;
    kk, t := OutputAt(code, k);
  }

  /** A fitting, declared builder range lands inside the declared slots or the flat cell space. */
  lemma RelocatedRangeInBounds(m: seq<nat>, r: Range, nv: nat, nu: nat)
    requires RangeFits(r, m)
    requires r.space == Value ==> r.start + r.count <= nv
    requires r.space == Uniform ==> r.start + r.count <= nu
    ensures var q := RelocateRange(m, r);
      && !q.space.Temp?
      && (q.space == Value ==> q.start + q.count <= nv)
      && (q.space == Uniform ==> q.start + q.count <= nu)
      && (q.space == Cell ==> q.start + q.count <= Base(m, |m|))
  {
    if r.space.Temp? {
      BaseMonotone(m, r.space.stack + 1, |m|);
    }
  }

  /**
   * In a finished program every operand names declared value or uniform slots or cells inside
   * the flat cell space; no stack-relative range is left.
   */
  lemma FinishedOperandsInBounds(b: Builder, nv: nat, nu: nat, k: nat, idx: nat)
    requires Valid(b) && Finish(b, nv, nu).Ok?
    requires k < |Finish(b, nv, nu).value.code|
    requires idx < |Operands(Finish(b, nv, nu).value.code[k])|
    ensures var r := Operands(Finish(b, nv, nu).value.code[k])[idx];
      && !r.space.Temp?
      && (r.space == Value ==> r.start + r.count <= nv)
      && (r.space == Uniform ==> r.start + r.count <= nu)
      && (r.space == Cell ==> r.start + r.count <= Finish(b, nv, nu).value.numCells)
  {
    var p := Finish(b, nv, nu).value;
    var resolved := Resolve(b.code);
    var m := b.maxDepths;
    var x := resolved[k];
    assert p.code[k] == MapOperands(x, r => RelocateRange(m, r));
    var kk := ResolvedFrom(b.code, k);
    assert x == b.code[kk];
    var orig := Operands(x)[idx];
    assert InstrFits(b.code[kk], m, b.numLabels);
    assert orig in Operands(b.code[kk]);
    RelocatedRangeInBounds(m, orig, nv, nu);
  }

  /**
   * Relocation keeps the stacks apart: two builder ranges on different stacks never share a cell
   * of the finished program.
   */
  lemma RelocatedStacksDisjoint(b: Builder, x: Range, y: Range)
    requires Valid(b)
    requires RangeFits(x, b.maxDepths) && RangeFits(y, b.maxDepths)
    requires x.space.Temp? && y.space.Temp? && x.space.stack != y.space.stack
    ensures var rx := RelocateRange(b.maxDepths, x);
      var ry := RelocateRange(b.maxDepths, y);
      rx.start + rx.count <= ry.start || ry.start + ry.count <= rx.start
  {
    var m := b.maxDepths;
    var s, t := x.space.stack, y.space.stack;
    if s < t {
      BaseMonotone(m, s + 1, t);
    } else {
      BaseMonotone(m, t + 1, s);
    }
  }
}
