/** Results, and the integer types, that all parts of the kernel share. */
module Kernel {
  const OK := 1
  const SYSERR := -1
  /** No process, and no list. */
  const EMPTY := -1
  const TWO32 := 0x1_0000_0000

  predicate Int32(x: int) { -0x8000_0000 <= x < 0x8000_0000 }
  predicate Uint32(x: int) { 0 <= x < TWO32 }
}
