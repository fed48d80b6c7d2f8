/**
 * The disassembly of a finished program: one line per instruction, the line number right-justified
 * in five columns, then the opcode name in a thirty-column field and a description of its effect.
 * The float reading that the disassembler appends to some constants is not modelled.
 */
module Disassembly {
  import opened Text
  import opened Slots
  import opened Opcodes
  import opened Literals
  import opened Instructions

  /** The text of a range of slots, cells or uniforms. */
  function RangeOf(r: Range): string {
    RangeText(r)
  }

  /** `0x` and eight upper-case hexadecimal digits. */
  function HexOf(bits: Bits32): string {
    "0x" + Hex8(bits as int)
  }

  /** A signed decimal with an explicit `+` for non-negative values (branch offsets). */
  function SignedText(v: int): string {
    [if v >= 0 then '+' else '-'] + NatToString(if v >= 0 then v else -v)
  }

  /** A decimal with a `-` only when negative. */
  function IntText(v: int): string {
    if v >= 0 then NatToString(v) else "-" + NatToString(-v)
  }

  function MaskWord(m: MaskKind): string {
    match m
    case ConditionMask => "condition"
    case LoopMask => "loop"
    case ReturnMask => "return"
  }

  /** The name of the mask register in effect descriptions. */
  function MaskRegister(m: MaskKind): string {
    match m
    case ConditionMask => "CondMask"
    case LoopMask => "LoopMask"
    case ReturnMask => "RetMask"
  }

  function BranchName(k: BranchKind): string {
    match k
    case Jump => "jump"
    case BranchIfAnyActiveLanes => "branch_if_any_active_lanes"
    case BranchIfNoActiveLanes => "branch_if_no_active_lanes"
  }

  /** Component letters; the builder only ever selects among the first four. */
  function ComponentChar(c: nat): char {
    if c < 4 then "xyzw"[c] else '?'
  }

  function ComponentText(cs: seq<nat>): string {
    seq(|cs|, i requires 0 <= i < |cs| => ComponentChar(cs[i]))
  }

  /** The largest component index plus one: how many cells a swizzle reads. */
  function ComponentsRead(cs: seq<nat>): (n: nat)
    ensures forall i :: 0 <= i < |cs| ==> cs[i] < n
    ensures n == 0 || exists i :: 0 <= i < |cs| && cs[i] == n - 1
  {
    if |cs| == 0 then 0
    else
      var rest := ComponentsRead(cs[1..]);
      assert forall i :: 1 <= i < |cs| ==> cs[i] == cs[1..][i - 1];
      if cs[0] + 1 > rest then cs[0] + 1 else rest
  }

  /** `copy_slot_masked` at width one, `copy_3_slots_unmasked` and so on above. */
  function SizedName(prefix: string, width: nat, one: string, many: string): string {
    if width <= 1 then prefix + one else prefix + NatToString(width) + many
  }

  /** The opcode an instruction disassembles as. */
  function OpName(x: Instr): string {
    match x
      case StoreSrcRg(_) => "store_src_rg"
      case StoreSrc(_) => "store_src"
      case StoreDst(_) => "store_dst"
      case LoadSrc(_) => "load_src"
      case LoadDst(_) => "load_dst"
      case InitLaneMasks => "init_lane_masks"
      case MaskOffReturnMask => "mask_off_return_mask"
      case MaskOffLoopMask => "mask_off_loop_mask"
      case ReenableLoopMask(_) => "reenable_loop_mask"
      case Immediate(_) => "immediate_f"
      case LoadUnmasked(_) => "load_unmasked"
      case StoreUnmasked(_) => "store_unmasked"
      case StoreMasked(_) => "store_masked"
      case StoreMask(m, _) => "store_" + MaskWord(m) + "_mask"
      case LoadMask(m, _) => "load_" + MaskWord(m) + "_mask"
      case MergeConditionMask(_) => "merge_condition_mask"
      case MergeLoopMask(_) => "merge_loop_mask"
      case CopyConstant(_, _) => "copy_constant"
      case CopyUniforms(d, _) => SizedName("copy_", d.count, "constant", "_constants")
      case CopySlots(m, d, _) =>
        SizedName("copy_", d.count, "slot", "_slots") + (if m then "_masked" else "_unmasked")
      case Swizzle(_, cs) => "swizzle_" + NatToString(|cs|)
      case Binary(op, d, _) => BinaryOpName(op, d.count)
      case Unary(op, d) => UnaryOpName(op, d.count)
      case Label(_) => "label"
      case BranchTo(k, _) => BranchName(k)
      case Branch(k, _) => BranchName(k)
      case StackRewind => "stack_rewind"
  }

  /** `a op= b`, the form of the arithmetic and bitwise-assignment families. */
  function Assign(d: Range, op: string, src: Range): string {
    RangeOf(d) + " " + op + "= " + RangeOf(src)
  }

  /** `a = f(a, b)`, the form of min, max and the comparisons. */
  function Call(d: Range, f: string, src: Range): string {
    RangeOf(d) + " = " + f + "(" + RangeOf(d) + ", " + RangeOf(src) + ")"
  }

  function BinaryEffect(op: BinaryOp, d: Range, src: Range): string {
    match op
    case NWay(f, _) =>
      (match f
       case Add => Assign(d, "+", src)
       case Sub => Assign(d, "-", src)
       case Mul => Assign(d, "*", src)
       case Div => Assign(d, "/", src)
       case Min => Call(d, "min", src)
       case Max => Call(d, "max", src)
       case CmpLt => Call(d, "lessThan", src)
       case CmpLe => Call(d, "lessThanEqual", src)
       case CmpEq => Call(d, "equal", src)
       case CmpNe => Call(d, "notEqual", src))
    case Bitwise(b) =>
      (match b
       case And => Assign(d, "&", src)
       case Or => Assign(d, "|", src)
       case Xor => Assign(d, "^", src))
  }

  /**
   * What an instruction does, as the disassembly describes it; `line` is the instruction's own
   * one-based line number, which branch targets are printed relative to.
   */
  function Effect(x: Instr, line: nat): string {
    match x
    case StoreSrcRg(d) => RangeOf(d) + " = src.rg"
    case StoreSrc(d) => RangeOf(d) + " = src.rgba"
    case StoreDst(d) => RangeOf(d) + " = dst.rgba"
    case LoadSrc(s) => "src.rgba = " + RangeOf(s)
    case LoadDst(s) => "dst.rgba = " + RangeOf(s)
    case InitLaneMasks => "CondMask = LoopMask = RetMask = true"
    case MaskOffReturnMask => "RetMask &= ~(CondMask & LoopMask & RetMask)"
    case MaskOffLoopMask => "LoopMask &= ~(CondMask & LoopMask & RetMask)"
    case ReenableLoopMask(s) => "LoopMask |= " + RangeOf(s)
    case Immediate(bits) => "src.r = " + HexOf(bits)
    case LoadUnmasked(s) => "src.r = " + RangeOf(s)
    case StoreUnmasked(d) => RangeOf(d) + " = src.r"
    case StoreMasked(d) => RangeOf(d) + " = Mask(src.r)"
    case StoreMask(m, d) => RangeOf(d) + " = " + MaskRegister(m)
    case LoadMask(m, s) => MaskRegister(m) + " = " + RangeOf(s)
    case MergeConditionMask(s) =>
      "CondMask = " + RangeOf(Slice(s, 0, 1)) + " & " + RangeOf(Slice(s, 1, 1))
    case MergeLoopMask(s) => "LoopMask &= " + RangeOf(s)
    case CopyConstant(d, bits) => RangeOf(d) + " = " + HexOf(bits)
    case CopyUniforms(d, s) => RangeOf(d) + " = " + RangeOf(s)
    case CopySlots(m, d, s) => RangeOf(d) + " = " + (if m then "Mask(" + RangeOf(s) + ")" else RangeOf(s))
    case Swizzle(d, cs) =>
      var read := if ComponentsRead(cs) > |cs| then ComponentsRead(cs) else |cs|;
      RangeOf(d) + " = (" + RangeOf(Range(d.space, d.start, read)) + ")." + ComponentText(cs)
    case Binary(op, d, s) => BinaryEffect(op, d, s)
    case Unary(_, d) => RangeOf(d) + " = ~" + RangeOf(d)
    case Label(id) => "label " + IntText(id)
    case BranchTo(k, id) => BranchName(k) + " label " + IntText(id)
    case Branch(k, offset) => BranchName(k) + " " + SignedText(offset) + " (#" + IntText(line + offset) + ")"
    case StackRewind => ""
  }

  /**
   * The line layout: a number right-justified in five columns, `". "`, then the name alone or,
   * when there is an effect, the name left-justified in thirty columns, a space and the effect.
   */
  function Layout(number: string, name: string, effect: string): string {
    PadLeft(number, 5) + ". " + NameAndEffect(name, effect)
  }

  function NameAndEffect(name: string, effect: string): string {
    if effect == "" then name else PadRight(name, 30) + " " + effect
  }

  /** One line of the disassembly, without its line break. */
  function LineBody(line: nat, x: Instr): string {
    Layout(NatToString(line), OpName(x), Effect(x, line))
  }

  /** The lines of a program, numbered from one: those of all but the last instruction, then the last's. */
  function Lines(code: seq<Instr>): (ls: seq<string>)
    ensures |ls| == |code|
  {
    if |code| == 0 then [] else Lines(code[..|code| - 1]) + [LineBody(|code|, code[|code| - 1])]
  }

  /** Line `i + 1` of the disassembly shows instruction `i`. */
  lemma {:induction false} LinesAt(code: seq<Instr>, i: nat)
    requires i < |code|
    ensures Lines(code)[i] == LineBody(i + 1, code[i])
    decreases |code|
  {
    if i < |code| - 1 {
      var front := code[..|code| - 1];
      LinesAt(front, i);
      assert front[i] == code[i];
    }
  }

  /** Each line followed by a line break. */
  function Join(ls: seq<string>): string
    decreases |ls|
  {
    if |ls| == 0 then "" else ls[0] + "\n" + Join(ls[1..])
  }

  /** The disassembly of a program. */
  function Dump(code: seq<Instr>): string {
    Join(Lines(code))
  }

  lemma {:induction false} JoinAppend(ls: seq<string>, l: string)
    ensures Join(ls + [l]) == Join(ls) + l + "\n"
    decreases |ls|
  {
    if |ls| == 0 {
      assert ls + [l] == [l];
      assert [l][1..] == [];
    } else {
      assert (ls + [l])[0] == ls[0];
      assert (ls + [l])[1..] == ls[1..] + [l];
      JoinAppend(ls[1..], l);
    }
  }

  /**
   * The disassembly can be produced line by line: appending an instruction appends exactly its
   * line, numbered one past the last.
   */
  lemma DumpAppend(code: seq<Instr>, x: Instr)
    ensures Dump(code + [x]) == Dump(code) + LineBody(|code| + 1, x) + "\n"
  {
    var c := code + [x];
    assert c[..|c| - 1] == code && c[|c| - 1] == x;
    JoinAppend(Lines(code), LineBody(|code| + 1, x));
  }

  /** Drops leading spaces. */
  function TrimLeft(s: string): (t: string)
    ensures |t| <= |s|
    decreases |s|
  {
    if |s| > 0 && s[0] == ' ' then TrimLeft(s[1..]) else s
  }

  lemma {:induction false} TrimPadding(n: nat, d: string)
    requires |d| == 0 || d[0] != ' '
    ensures TrimLeft(Spaces(n) + d) == d
    decreases n
  {
    if n > 0 {
      assert (Spaces(n) + d)[0] == ' ';
      assert (Spaces(n) + d)[1..] == Spaces(n - 1) + d;
      TrimPadding(n - 1, d);
    } else {
      assert Spaces(n) + d == d;
    }
  }

  function Pow10(k: nat): nat {
    if k == 0 then 1 else 10 * Pow10(k - 1)
  }

  lemma {:induction false} NatToStringLength(n: nat, k: nat)
    requires 1 <= k && n < Pow10(k)
    ensures |NatToString(n)| <= k
    decreases k
  {
    if n >= 10 {
      NatToStringLength(n / 10, k - 1);
    }
  }

  lemma NameAndEffectColumns(name: string, effect: string)
    requires |name| <= 30
    ensures var t := NameAndEffect(name, effect);
      && |t| >= |name|
      && (forall i :: 0 <= i < |name| ==> t[i] == name[i])
      && (effect != "" ==> |t| == 31 + |effect| && forall i :: 0 <= i < |effect| ==> t[31 + i] == effect[i])
  {
    if effect != "" {
      var field := PadRight(name, 30);
      assert forall i :: 0 <= i < |name| ==> field[i] == field[..|name|][i];
    }
  }

  lemma LayoutColumns(number: string, name: string, effect: string)
    requires |number| <= 5 && |name| <= 30
    ensures var s := Layout(number, name, effect);
      && |s| >= 7 + |name|
      && (forall i :: 0 <= i < 5 ==> s[i] == PadLeft(number, 5)[i])
      && s[5] == '.' && s[6] == ' '
      && (forall i :: 0 <= i < |name| ==> s[7 + i] == name[i])
      && (effect != "" ==> |s| == 38 + |effect| && forall i :: 0 <= i < |effect| ==> s[38 + i] == effect[i])
  {
    NameAndEffectColumns(name, effect);
    assert |PadLeft(number, 5)| == 5;
  }

  /**
   * The line-number field reads back: for lines up to 99999, dropping the padding from the first
   * five columns and parsing the digits gives the line number, whatever the opcode and effect.
   */
  lemma LineNumberReadsBack(line: nat, name: string, effect: string)
    requires line <= 99999
    ensures var s := Layout(NatToString(line), name, effect);
      && |s| >= 7
      && s[5..7] == ". "
      && AllDigits(TrimLeft(s[..5]))
      && ParseDigits(TrimLeft(s[..5])) == line
  {
    var d := NatToString(line);
    assert Pow10(5) == 100000 by {
      assert Pow10(1) == 10 && Pow10(2) == 100 && Pow10(3) == 1000 && Pow10(4) == 10000;
    }
    NatToStringLength(line, 5);
    var field := PadLeft(d, 5);
    var s := Layout(d, name, effect);
    assert s == field + (". " + NameAndEffect(name, effect));
    assert s[..5] == field;
    assert s[5..7] == ". ";
    assert field == Spaces(5 - |d|) + d by {
      if |d| == 5 {
        assert Spaces(0) + d == d;
      }
    }
    assert IsDigit(d[0]);
    TrimPadding(5 - |d|, d);
    ParseNatToString(line);
  }
}
