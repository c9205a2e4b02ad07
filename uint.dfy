/** Unsigned machine integers that the code only counts with and compares,
    kept as bounded numbers. */
module Uint {
  const UINT32_LIMIT: nat := 0x1_0000_0000

  /** `uint32` / `u32`. */
  type Uint32 = n: nat | n < UINT32_LIMIT
}
