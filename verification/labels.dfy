/**
 * Label resolution at `finish()`: labels become positions, each branch's label becomes an offset
 * relative to the branch, and a `stack_rewind` is placed right before every backward branch.
 */
module Labels {
  import opened Opcodes
  import opened Instructions

  /** The labels bound by `label()` markers among the first `k` instructions. */
  function LabelsBefore(code: seq<Instr>, k: nat): set<nat>
    requires k <= |code|
  {
    set i | 0 <= i < k && code[i].Label? :: code[i].labelId
  }

  /** The labels bound anywhere in `code`. */
  function LabelsIn(code: seq<Instr>): set<nat> {
    LabelsBefore(code, |code|)
  }

  /** Both instructions are `label()` markers of the same label. */
  predicate SameLabel(x: Instr, y: Instr) {
    x.Label? && y.Label? && x.labelId == y.labelId
  }

  /** No label is bound twice. */
  predicate BoundOnce(code: seq<Instr>) {
    forall i, j :: 0 <= i < j < |code| ==> !SameLabel(code[i], code[j])
  }

  /** Every branch names a label that some `label()` call binds. */
  predicate Resolvable(code: seq<Instr>) {
    forall i :: 0 <= i < |code| && code[i].BranchTo? ==> code[i].labelId in LabelsIn(code)
  }

  /** The branch at `k` targets a label bound before it. */
  predicate IsBackward(code: seq<Instr>, k: nat)
    requires k < |code|
  {
    code[k].BranchTo? && code[k].labelId in LabelsBefore(code, k)
  }

  /** How many output instructions instruction `k` becomes: none for a label, two for a backward branch. */
  function Size(code: seq<Instr>, k: nat): nat
    requires k < |code|
  {
    if code[k].Label? then 0 else if IsBackward(code, k) then 2 else 1
  }

  /** The number of output instructions the first `k` instructions resolve to. */
  function OutLen(code: seq<Instr>, k: nat): nat
    requires k <= |code|
  {
    if k == 0 then 0 else OutLen(code, k - 1) + Size(code, k - 1)
  }

  /** First pass over the first `k` instructions: each bound label's position in the output. */
  function Positions(code: seq<Instr>, k: nat): map<nat, nat>
    requires k <= |code|
  {
    if k == 0 then map[]
    else
      var m := Positions(code, k - 1);
      var x := code[k - 1];
      if x.Label? && x.labelId !in m then m[x.labelId := OutLen(code, k - 1)] else m
  }

  lemma LabelsBeforeStep(code: seq<Instr>, k: nat)
    requires k < |code|
    ensures LabelsBefore(code, k + 1) == LabelsBefore(code, k) + (if code[k].Label? then {code[k].labelId} else {})
  {
    var a, b := LabelsBefore(code, k + 1), LabelsBefore(code, k);
    forall id | id in a ensures id in b || (code[k].Label? && id == code[k].labelId) {
      var i :| 0 <= i < k + 1 && code[i].Label? && code[i].labelId == id;
    }
  }

  /** Appending `x` adds its label, if it is one, to the labels bound. */
  lemma LabelsInSnoc(p: seq<Instr>, x: Instr)
    ensures LabelsIn(p + [x]) == LabelsIn(p) + (if x.Label? then {x.labelId} else {})
  {
    var q := p + [x];
    LabelsBeforeStep(q, |p|);
    assert forall i :: 0 <= i < |p| ==> q[i] == p[i];
    assert LabelsBefore(q, |p|) == LabelsIn(p);
  }

  /** The labels the first pass has positioned are exactly the labels bound so far. */
  lemma {:induction false} PositionsKeys(code: seq<Instr>, k: nat)
    requires k <= |code|
    ensures Positions(code, k).Keys == LabelsBefore(code, k)
  {
    if k > 0 {
      PositionsKeys(code, k - 1);
      LabelsBeforeStep(code, k - 1);
    }
  }

  lemma {:induction false} OutLenMonotone(code: seq<Instr>, a: nat, b: nat)
    requires a <= b <= |code|
    ensures OutLen(code, a) <= OutLen(code, b)
    decreases b - a
  {
    if a < b {
      OutLenMonotone(code, a, b - 1);
    }
  }

  /** A label bound once, at index `j`, is positioned where the output of everything before it ends. */
  lemma {:induction false} PositionsAt(code: seq<Instr>, j: nat, k: nat)
    requires BoundOnce(code)
    requires j < k <= |code| && code[j].Label?
    ensures code[j].labelId in Positions(code, k)
    ensures Positions(code, k)[code[j].labelId] == OutLen(code, j)
  {
    var id := code[j].labelId;
    PositionsKeys(code, k - 1);
    if j == k - 1 {
      assert id !in LabelsBefore(code, j);
    } else {
      PositionsAt(code, j, k - 1);
      assert code[k - 1].Label? ==> code[k - 1].labelId != id;
    }
  }

  /** What the instruction at `k` becomes in the output. */
  function Translate(code: seq<Instr>, positions: map<nat, nat>, k: nat): (out: seq<Instr>)
    requires k < |code|
    requires code[k].BranchTo? ==> code[k].labelId in positions
    ensures |out| == Size(code, k)
  {
    var p := OutLen(code, k);
    match code[k]
    case Label(_) => []
    case BranchTo(kind, id) =>
      if IsBackward(code, k) then [StackRewind, Branch(kind, positions[id] - (p + 1))]
      else [Branch(kind, positions[id] - p)]
    case _ => [code[k]]
  }

  predicate Positioned(code: seq<Instr>, positions: map<nat, nat>) {
    forall i :: 0 <= i < |code| && code[i].BranchTo? ==> code[i].labelId in positions
  }

  /** Second pass over the first `k` instructions. */
  function ResolveUpTo(code: seq<Instr>, positions: map<nat, nat>, k: nat): (out: seq<Instr>)
    requires k <= |code|
    requires Positioned(code, positions)
    ensures |out| == OutLen(code, k)
  {
    if k == 0 then [] else ResolveUpTo(code, positions, k - 1) + Translate(code, positions, k - 1)
  }

  /** The label positions of the whole program. */
  function AllPositions(code: seq<Instr>): (m: map<nat, nat>)
    requires Resolvable(code)
    ensures Positioned(code, m)
  {
    PositionsKeys(code, |code|);
    Positions(code, |code|)
  }

  /** The resolved program. */
  function Resolve(code: seq<Instr>): seq<Instr>
    requires Resolvable(code)
  {
    ResolveUpTo(code, AllPositions(code), |code|)
  }

  lemma {:induction false} ResolvePrefix(code: seq<Instr>, positions: map<nat, nat>, j: nat, k: nat)
    requires j <= k <= |code|
    requires Positioned(code, positions)
    ensures ResolveUpTo(code, positions, j) <= ResolveUpTo(code, positions, k)
    decreases k - j
  {
    if j < k {
      ResolvePrefix(code, positions, j, k - 1);
    }
  }

  /** The output of instruction `j` sits at output positions `OutLen(code, j)` onwards. */
  lemma ResolvePiece(code: seq<Instr>, positions: map<nat, nat>, j: nat, t: nat)
    requires j < |code|
    requires Positioned(code, positions)
    requires t < |Translate(code, positions, j)|
    ensures OutLen(code, j) + t < OutLen(code, |code|)
    ensures ResolveUpTo(code, positions, |code|)[OutLen(code, j) + t] == Translate(code, positions, j)[t]
  {
    ResolvePrefix(code, positions, j + 1, |code|);
  }

  /** Finds which input instruction produced output position `i`. */
  lemma {:induction false} Locate(code: seq<Instr>, n: nat, i: nat) returns (k: nat)
    requires n <= |code| && i < OutLen(code, n)
    ensures k < n
    ensures OutLen(code, k) <= i < OutLen(code, k) + Size(code, k)
  {
    if i < OutLen(code, n - 1) {
      k := Locate(code, n - 1, i);
    } else {
      k := n - 1;
    }
  }

  /** Under `BoundOnce`, a branch is backward exactly when its label's `label()` call comes before it. */
  lemma BackwardIffEarlier(code: seq<Instr>, k: nat, j: nat)
    requires BoundOnce(code)
    requires k < |code| && code[k].BranchTo?
    requires j < |code| && code[j] == Label(code[k].labelId)
    ensures IsBackward(code, k) <==> j < k
  {
    if IsBackward(code, k) {
      var i :| 0 <= i < k && code[i].Label? && code[i].labelId == code[k].labelId;
      assert i == j;
    }
  }

  /** The label bound for the branch at `k`. */
  lemma BindingOf(code: seq<Instr>, k: nat) returns (j: nat)
    requires Resolvable(code)
    requires k < |code| && code[k].BranchTo?
    ensures j < |code| && code[j] == Label(code[k].labelId)
  {
    var id := code[k].labelId;
    assert id in LabelsBefore(code, |code|);
    j :| 0 <= j < |code| && code[j].Label? && code[j].labelId == id;
  }

  /** The position the first pass records for the label of the branch at `k`, bound at `j`. */
  lemma TargetPosition(code: seq<Instr>, k: nat, j: nat)
    requires Resolvable(code) && BoundOnce(code)
    requires k < |code| && code[k].BranchTo?
    requires j < |code| && code[j] == Label(code[k].labelId)
    ensures AllPositions(code)[code[k].labelId] == OutLen(code, j)
    ensures IsBackward(code, k) <==> j < k
  {
    PositionsAt(code, j, |code|);
    BackwardIffEarlier(code, k, j);
  }

  /** What the branch at `k` becomes, given that its label is bound at `j`. */
  lemma TranslateBranch(code: seq<Instr>, k: nat, j: nat)
    requires Resolvable(code) && BoundOnce(code)
    requires k < |code| && code[k].BranchTo?
    requires j < |code| && code[j] == Label(code[k].labelId)
    ensures j < k ==> (Translate(code, AllPositions(code), k)
      == [StackRewind, Branch(code[k].branch, OutLen(code, j) - (OutLen(code, k) + 1))])
    ensures j > k ==> (Translate(code, AllPositions(code), k)
      == [Branch(code[k].branch, OutLen(code, j) - OutLen(code, k))])
  {
    TargetPosition(code, k, j);
    assert code[k] == BranchTo(code[k].branch, code[k].labelId);
  }

  /**
   * Every branch lands on its label: its offset is the label's output position minus the branch's
   * own position, negative (and right after a `stack_rewind`) for a backward branch and positive
   * for a forward one.
   */
  lemma BranchReachesLabel(code: seq<Instr>, k: nat, j: nat)
    requires Resolvable(code) && BoundOnce(code)
    requires k < |code| && code[k].BranchTo?
    requires j < |code| && code[j] == Label(code[k].labelId)
    ensures var p := OutLen(code, k) + (if j < k then 1 else 0);
      && p < |Resolve(code)|
      && Resolve(code)[p] == Branch(code[k].branch, OutLen(code, j) - p)
      && (j < k ==> Resolve(code)[p - 1] == StackRewind && Resolve(code)[p].offset < 0)
      && (j > k ==> Resolve(code)[p].offset > 0)
  {
    TranslateBranch(code, k, j);
    var positions := AllPositions(code);
    ResolvePiece(code, positions, k, 0);
    if j < k {
      ResolvePiece(code, positions, k, 1);
      OutLenMonotone(code, j, k);
    } else {
      OutLenMonotone(code, k + 1, j);
    }
  }

  /** The builder never emits resolved branches or rewinds itself. */
  predicate BuildOnly(code: seq<Instr>) {
    forall i :: 0 <= i < |code| ==> !code[i].Branch? && !code[i].StackRewind?
  }

  /** What output position `i` holds, in terms of the input instruction that produced it. */
  lemma OutputAt(code: seq<Instr>, i: nat) returns (k: nat, t: nat)
    requires Resolvable(code)
    requires i < |Resolve(code)|
    ensures k < |code| && t < Size(code, k) && i == OutLen(code, k) + t
    ensures Resolve(code)[i] == Translate(code, AllPositions(code), k)[t]
  {
    k := Locate(code, |code|, i);
    t := i - OutLen(code, k);
    ResolvePiece(code, AllPositions(code), k, t);
  }

  /** The sign of a resolved branch's offset tells its direction. */
  lemma OffsetSign(code: seq<Instr>, k: nat)
    requires Resolvable(code) && BoundOnce(code)
    requires k < |code| && code[k].BranchTo?
    ensures IsBackward(code, k) ==> Translate(code, AllPositions(code), k)[1].offset < 0
    ensures !IsBackward(code, k) ==> Translate(code, AllPositions(code), k)[0].offset > 0
  {
    var j := BindingOf(code, k);
    TranslateBranch(code, k, j);
    BackwardIffEarlier(code, k, j);
    if j < k {
      OutLenMonotone(code, j, k);
    } else {
      OutLenMonotone(code, k + 1, j);
    }
  }

  /** A `stack_rewind` in the resolved program is always followed by a backward branch. */
  lemma RewindPrecedesBackwardBranch(code: seq<Instr>, i: nat)
    requires Resolvable(code) && BoundOnce(code) && BuildOnly(code)
    requires i < |Resolve(code)| && Resolve(code)[i] == StackRewind
    ensures i + 1 < |Resolve(code)|
    ensures Resolve(code)[i + 1].Branch? && Resolve(code)[i + 1].offset < 0
  {
    var k, t := OutputAt(code, i);
    assert code[k].BranchTo? && IsBackward(code, k) && t == 0;
    OffsetSign(code, k);
    ResolvePiece(code, AllPositions(code), k, 1);
  }

  /** A backward branch in the resolved program always comes right after a `stack_rewind`. */
  lemma BackwardBranchFollowsRewind(code: seq<Instr>, i: nat)
    requires Resolvable(code) && BoundOnce(code) && BuildOnly(code)
    requires i + 1 < |Resolve(code)|
    requires Resolve(code)[i + 1].Branch? && Resolve(code)[i + 1].offset < 0
    ensures Resolve(code)[i] == StackRewind
  {
    var k, t := OutputAt(code, i + 1);
    assert code[k].BranchTo?;
    OffsetSign(code, k);
    assert IsBackward(code, k) && t == 1;
    ResolvePiece(code, AllPositions(code), k, 0);
  }

  /**
   * In the resolved program a `stack_rewind` appears exactly where the next instruction is a
   * backward (negative-offset) branch.
   */
  lemma RewindsExactlyBeforeBackwardBranches(code: seq<Instr>, i: nat)
    requires Resolvable(code) && BoundOnce(code) && BuildOnly(code)
    requires i < |Resolve(code)|
    ensures var out := Resolve(code);
      out[i] == StackRewind <==> (i + 1 < |out| && out[i + 1].Branch? && out[i + 1].offset < 0)
  {
    var out := Resolve(code);
    if out[i] == StackRewind {
      RewindPrecedesBackwardBranch(code, i);
    }
    if i + 1 < |out| && out[i + 1].Branch? && out[i + 1].offset < 0 {
      BackwardBranchFollowsRewind(code, i);
    }
  }

  /** Resolution removes every label and every unresolved branch. */
  lemma ResolvedIsFinal(code: seq<Instr>, i: nat)
    requires Resolvable(code)
    requires i < |Resolve(code)|
    ensures !Resolve(code)[i].Label? && !Resolve(code)[i].BranchTo?
  {
    var k, t := OutputAt(code, i);
  }

  /** Every other instruction is kept, in order, at the position the first pass counted for it. */
  lemma OrdinaryKept(code: seq<Instr>, k: nat)
    requires Resolvable(code)
    requires k < |code| && !code[k].Label? && !code[k].BranchTo?
    ensures OutLen(code, k) < |Resolve(code)|
    ensures Resolve(code)[OutLen(code, k)] == code[k]
  {
    ResolvePiece(code, AllPositions(code), k, 0);
  }

  /** Code with no labels and no branches. */
  predicate StraightLine(code: seq<Instr>) {
    forall i :: 0 <= i < |code| ==> !code[i].Label? && !code[i].BranchTo?
  }

  lemma {:induction false} StraightLinePrefix(code: seq<Instr>, positions: map<nat, nat>, k: nat)
    requires StraightLine(code) && Positioned(code, positions) && k <= |code|
    ensures ResolveUpTo(code, positions, k) == code[..k]
  {
    if k > 0 {
      StraightLinePrefix(code, positions, k - 1);
      assert code[..k] == code[..k - 1] + [code[k - 1]];
    }
  }

  /** Without labels and branches there is nothing to resolve: the code comes out as it went in. */
  lemma StraightLineUnchanged(code: seq<Instr>)
    requires StraightLine(code)
    ensures Resolvable(code) && Resolve(code) == code
  {
    StraightLinePrefix(code, AllPositions(code), |code|);
  }

  /** Pass one: walks the code once, recording where each label lands in the output. */
  method FirstPass(code: seq<Instr>) returns (positions: map<nat, nat>)
    ensures positions == Positions(code, |code|)
  {
    positions := map[];
    var pos := 0;
    var i := 0;
    while i < |code|
      invariant 0 <= i <= |code|
      invariant positions == Positions(code, i)
      invariant pos == OutLen(code, i)
    {
      PositionsKeys(code, i);
      match code[i] {
        case Label(id) =>
          if id !in positions {
            positions := positions[id := pos];
          }
        case BranchTo(_, id) =>
          pos := pos + (if id in positions then 2 else 1);
        case _ =>
          pos := pos + 1;
      }
      i := i + 1;
    }
  }

  /** Pass two for one instruction: `seen` holds the labels bound so far and `pos` the output length so far. */
  method RewriteAt(code: seq<Instr>, positions: map<nat, nat>, i: nat, seen: set<nat>, pos: nat)
    returns (piece: seq<Instr>)
    requires i < |code| && Positioned(code, positions)
    requires seen == LabelsBefore(code, i) && pos == OutLen(code, i)
    ensures piece == Translate(code, positions, i)
  {
    match code[i] {
      case Label(_) =>
        piece := [];
      case BranchTo(kind, id) =>
        if id in seen {
          piece := [StackRewind, Branch(kind, positions[id] - (pos + 1))];
        } else {
          piece := [Branch(kind, positions[id] - pos)];
        }
      case _ =>
        piece := [code[i]];
    }
  }

  /** The two-pass resolver: pass one positions labels, pass two rewrites branches. */
  method ResolveLabels(code: seq<Instr>) returns (out: seq<Instr>)
    requires Resolvable(code)
    ensures out == Resolve(code)
  {
    var positions := FirstPass(code);
    assert positions == AllPositions(code);
    var seen: set<nat> := {};
    out := [];
    var i := 0;
    while i < |code|
      invariant 0 <= i <= |code|
      invariant out == ResolveUpTo(code, positions, i)
      invariant seen == LabelsBefore(code, i)
    {
      LabelsBeforeStep(code, i);
      var piece := RewriteAt(code, positions, i, seen, |out|);
      out := out + piece;
      if code[i].Label? {
        seen := seen + {code[i].labelId};
      }
      i := i + 1;
    }
  }
}
