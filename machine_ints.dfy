/** Fixed-width integers of the C++ source, written out explicitly. */
module MachineInts {

  /** `int64_t`: the element type of the integer attributes and pools. */
  newtype int64 = x: int | -0x8000_0000_0000_0000 <= x < 0x8000_0000_0000_0000

  /** `int32_t`: one of the accepted input element types. */
  newtype int32 = x: int | -0x8000_0000 <= x < 0x8000_0000

  /** 2^64: `size_t` arithmetic is modulo this. */
  const SizeModulus: int := 0x1_0000_0000_0000_0000

  /** 2^32: the frequency counters are `uint32_t`. */
  const U32Modulus: int := 0x1_0000_0000

  /**
   * Conversion of an `int64_t` offset to `size_t` (ngram.cc, `size_t start_idx =
   * ngram_counts_[i]`): a negative value wraps to a value of at least 2^63.
   */
  function ToSize(v: int64): (r: nat)
    ensures r < SizeModulus
    ensures v >= 0 ==> r == v as int
    ensures v < 0 ==> r >= 0x8000_0000_0000_0000
  {
    if v < 0 then v as int + SizeModulus else v as int
  }
}
