/** The operation families the raster-pipeline builder lowers, and how their opcode names depend on width. */
module Opcodes {
  import opened Text

  datatype NumType = FloatType | IntType | UIntType

  /** Arithmetic and comparison families; each has scalar, 2-4 wide and `_n_` opcodes. */
  datatype Family = Add | Sub | Mul | Div | Min | Max | CmpLt | CmpLe | CmpEq | CmpNe

  datatype BitOp = And | Or | Xor

  datatype BinaryOp = NWay(family: Family, ty: NumType) | Bitwise(bit: BitOp)

  datatype UnaryOp = BitwiseNot

  /** The three execution masks that can be saved to and restored from a stack cell. */
  datatype MaskKind = ConditionMask | LoopMask | ReturnMask

  datatype BranchKind = Jump | BranchIfAnyActiveLanes | BranchIfNoActiveLanes

  /**
   * The operations the builder accepts: unsigned forms exist only where they differ from
   * the signed ones (division, min/max and ordering); the other families are shared with ints.
   */
  predicate IsBuilderOp(op: BinaryOp) {
    op.NWay? && op.ty == UIntType ==> op.family in {Div, Min, Max, CmpLt, CmpLe}
  }

  function FamilyName(f: Family): string {
    match f
    case Add => "add"
    case Sub => "sub"
    case Mul => "mul"
    case Div => "div"
    case Min => "min"
    case Max => "max"
    case CmpLt => "cmplt"
    case CmpLe => "cmple"
    case CmpEq => "cmpeq"
    case CmpNe => "cmpne"
  }

  function TypeName(t: NumType): string {
    match t
    case FloatType => "float"
    case IntType => "int"
    case UIntType => "uint"
  }

  function BitName(b: BitOp): string {
    match b
    case And => "and"
    case Or => "or"
    case Xor => "xor"
  }

  /**
   * The opcode for a binary operation on `width` slots: the scalar name at width 1
   * (`add_float`, `cmplt_int`), `op_k_types` for widths 2-4, and one generic `op_n_types`
   * above 4. Bitwise operations have fixed widths only (`bitwise_and`, `bitwise_and_4`).
   */
  function BinaryOpName(op: BinaryOp, width: nat): string {
    match op
    case NWay(f, t) =>
      if width <= 1 then FamilyName(f) + "_" + TypeName(t)
      else if width <= 4 then FamilyName(f) + "_" + NatToString(width) + "_" + TypeName(t) + "s"
      else FamilyName(f) + "_n_" + TypeName(t) + "s"
    case Bitwise(b) =>
      "bitwise_" + BitName(b) + (if width <= 1 then "" else "_" + NatToString(width))
  }

  function UnaryOpName(op: UnaryOp, width: nat): string {
    "bitwise_not" + (if width <= 1 then "" else "_" + NatToString(width))
  }

  /** The character right after `<family>_` in an n-way opcode name. */
  lemma {:induction false} WidthMarker(f: Family, t: NumType, width: nat)
    requires width >= 1
    ensures |BinaryOpName(NWay(f, t), width)| > |FamilyName(f)| + 1
    ensures BinaryOpName(NWay(f, t), width)[..|FamilyName(f)| + 1] == FamilyName(f) + "_"
    ensures var c := BinaryOpName(NWay(f, t), width)[|FamilyName(f)| + 1];
      && (width == 1 ==> c == TypeName(t)[0])
      && (2 <= width <= 4 ==> c == DigitChar(width))
      && (width > 4 ==> c == 'n')
  {
    var F := FamilyName(f);
    var name := BinaryOpName(NWay(f, t), width);
    if width == 1 {
      assert name == (F + "_") + TypeName(t);
    } else if width <= 4 {
      assert NatToString(width) == [DigitChar(width)];
      assert name == (F + "_") + ([DigitChar(width)] + "_" + TypeName(t) + "s");
    } else {
      assert name == (F + "_") + ("n_" + TypeName(t) + "s");
    }
  }

  /**
   * An n-way opcode name identifies the width exactly for widths 1-4, and all widths above 4
   * share the one generic `_n_` opcode (which carries the width as an operand instead).
   */
  lemma NWayNameSelectsWidth(f: Family, t: NumType, w1: nat, w2: nat)
    requires w1 >= 1 && w2 >= 1
    ensures BinaryOpName(NWay(f, t), w1) == BinaryOpName(NWay(f, t), w2)
            <==> w1 == w2 || (w1 > 4 && w2 > 4)
  {
    if BinaryOpName(NWay(f, t), w1) == BinaryOpName(NWay(f, t), w2) {
      WidthMarker(f, t, w1);
      WidthMarker(f, t, w2);
      assert TypeName(t)[0] in {'f', 'i', 'u'};
    }
  }
}
