/** How literals become the 32-bit patterns the pipeline stores. */
module Literals {

  const TwoTo31: int := 0x8000_0000
  const TwoTo32: int := 0x1_0000_0000

  /** A raw 32-bit pattern, as stored in a slot and printed as eight hexadecimal digits. */
  newtype Bits32 = x: int | 0 <= x < 0x1_0000_0000

  predicate IsInt32(v: int) {
    -TwoTo31 <= v < TwoTo31
  }

  /** The two's-complement pattern of a 32-bit signed integer (so -123 is 0xFFFFFF85). */
  function IntBits(v: int): (bits: Bits32)
    requires IsInt32(v)
    ensures bits as int % TwoTo32 == v % TwoTo32
  {
    (if v < 0 then v + TwoTo32 else v) as Bits32
  }

  /** The pattern of a 32-bit unsigned integer. */
  function UIntBits(v: nat): (bits: Bits32)
    requires v < TwoTo32
    ensures bits as int == v
  {
    v as Bits32
  }

  /** Reads a 32-bit pattern as a two's-complement signed integer. */
  function SignedValue(bits: Bits32): (v: int)
    ensures IsInt32(v)
    ensures v % TwoTo32 == bits as int
  {
    if bits as int < TwoTo31 then bits as int else bits as int - TwoTo32
  }

  /** Storing a signed literal loses nothing: its pattern reads back as the same integer. */
  lemma IntBitsRoundTrip(v: int)
    requires IsInt32(v)
    ensures SignedValue(IntBits(v)) == v
  {
  }

  /** Every pattern is the pattern of exactly the signed integer it reads back as. */
  lemma SignedValueRoundTrip(bits: Bits32)
    ensures IntBits(SignedValue(bits)) == bits
  {
  }
}
