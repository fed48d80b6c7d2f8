/** The three slot spaces of the raster pipeline and how a range of slots is written in the disassembly. */
module Slots {
  import opened Text

  /**
   * Where a range lives: persistent value slots (`v`), read-only uniform slots (`u`),
   * the cells of one temporary stack while the program is being built (`Temp`, numbered
   * from the bottom of that stack), or the flat cell space of a finished program (`$`).
   */
  datatype Space = Value | Uniform | Temp(stack: nat) | Cell

  /** `count` consecutive slots of one space starting at `start`. */
  datatype Range = Range(space: Space, start: nat, count: nat)

  /** The `{start, count}` slot range the builder's callers pass in; it always names value or uniform slots. */
  datatype SlotRange = SlotRange(start: nat, count: nat)

  function ValueSlots(r: SlotRange): Range {
    Range(Value, r.start, r.count)
  }

  function UniformSlots(r: SlotRange): Range {
    Range(Uniform, r.start, r.count)
  }

  /** The `n` slots of `r`'s space that begin `offset` slots into `r`. */
  function Slice(r: Range, offset: nat, n: nat): Range {
    Range(r.space, r.start + offset, n)
  }

  /** The last slot of a non-empty range. */
  function Last(r: Range): nat
    requires r.count >= 1
  {
    r.start + r.count - 1
  }

  function SpacePrefix(s: Space): char {
    match s
    case Value => 'v'
    case Uniform => 'u'
    case Temp(_) => '$'
    case Cell => '$'
  }

  /** `v4` for one slot, `v0..1` for several; stack and mask cells use `$`, uniforms `u`. */
  function RangeText(r: Range): string {
    [SpacePrefix(r.space)] + (NatToString(r.start) + LastSlotText(r))
  }

  /** Nothing for a single slot, otherwise `..` and the last slot. */
  function LastSlotText(r: Range): string {
    if r.count <= 1 then "" else ".." + NatToString(r.start + r.count - 1)
  }

  /** A run of digits followed by a non-digit (or nothing) splits only one way. */
  lemma SplitAfterDigits(da: string, ra: string, db: string, rb: string)
    requires AllDigits(da) && AllDigits(db)
    requires |ra| == 0 || !IsDigit(ra[0])
    requires |rb| == 0 || !IsDigit(rb[0])
    requires da + ra == db + rb
    ensures da == db && ra == rb
  {
    LeadingDigitsOf(da, ra);
    LeadingDigitsOf(db, rb);
    assert (da + ra)[|da|..] == ra;
    assert (db + rb)[|db|..] == rb;
  }

  /** Two ranges starting at the same slot whose tails print alike have the same width. */
  lemma LastSlotTextInjective(a: Range, b: Range)
    requires a.count >= 1 && b.count >= 1 && a.start == b.start
    requires LastSlotText(a) == LastSlotText(b)
    ensures a.count == b.count
  {
    if a.count > 1 && b.count > 1 {
      assert LastSlotText(a)[2..] == NatToString(a.start + a.count - 1);
      assert LastSlotText(b)[2..] == NatToString(b.start + b.count - 1);
      NatToStringInjective(a.start + a.count - 1, b.start + b.count - 1);
    }
  }

  /**
   * The range notation is unambiguous: two non-empty ranges that print alike have the same
   * prefix, the same first slot and the same width.
   */
  lemma RangeTextInjective(a: Range, b: Range)
    requires a.count >= 1 && b.count >= 1
    requires RangeText(a) == RangeText(b)
    ensures SpacePrefix(a.space) == SpacePrefix(b.space)
    ensures a.start == b.start && a.count == b.count
  {
    var da, db := NatToString(a.start), NatToString(b.start);
    var ra, rb := LastSlotText(a), LastSlotText(b);
    assert RangeText(a)[0] == SpacePrefix(a.space) && RangeText(a)[1..] == da + ra;
    assert RangeText(b)[0] == SpacePrefix(b.space) && RangeText(b)[1..] == db + rb;
    SplitAfterDigits(da, ra, db, rb);
    NatToStringInjective(a.start, b.start);
    LastSlotTextInjective(a, b);
  }
}
