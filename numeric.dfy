/** Fixed-width unsigned integers of the Rust code, written out on Dafny's unbounded `int`. */
module Numeric {

  const U32_MODULUS: int := 0x1_0000_0000
  const U64_MODULUS: int := 0x1_0000_0000_0000_0000

  type U32 = x: int | 0 <= x < U32_MODULUS
  type U64 = x: int | 0 <= x < U64_MODULUS

  /** Rust's `x as u32` on a `u64`: keeps the low 32 bits. */
  function TruncateU32(x: U64): (r: U32)
    ensures x < U32_MODULUS ==> r == x
    ensures (x - r) % U32_MODULUS == 0
  {
    x % U32_MODULUS
  }

  /** Rust's `a + b` on two `u32` in a release build: wraps modulo 2^32. */
  function WrappingAddU32(a: U32, b: U32): (r: U32)
    ensures a + b < U32_MODULUS ==> r == a + b
    ensures a + b >= U32_MODULUS ==> r == a + b - U32_MODULUS && r < a && r < b
  {
    (a + b) % U32_MODULUS
  }
}
