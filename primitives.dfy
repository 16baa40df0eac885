/** Fixed-width integers of the source and an opaque float. */
module Primitives {
  newtype u8 = x: int | 0 <= x < 0x100
  newtype u16 = x: int | 0 <= x < 0x1_0000
  newtype u32 = x: int | 0 <= x < 0x1_0000_0000
  newtype i32 = x: int | -0x8000_0000 <= x < 0x8000_0000

  const USIZE_LIMIT: int := 0x1_0000_0000_0000_0000

  /** Rust's `x as usize` for an `i32` on a 64-bit target: sign extension, so a negative
      value becomes 2^64 + x. */
  function AsUsize(x: i32): (r: nat)
    ensures r < USIZE_LIMIT
    ensures x >= 0 ==> r == x as int
    ensures x < 0 ==> r >= USIZE_LIMIT - 0x8000_0000
  {
    if x >= 0 then x as nat else (USIZE_LIMIT + x as int) as nat
  }

  /** Rust's `i as i32` for a `usize` index: keeps the low 32 bits, two's complement. */
  function AsI32(i: nat): (r: i32)
    ensures i < 0x8000_0000 ==> r as int == i
    ensures (r as int - i) % 0x1_0000_0000 == 0
  {
    var low := i % 0x1_0000_0000;
    if low < 0x8000_0000 then low as i32 else (low - 0x1_0000_0000) as i32
  }

  /** Rust's `i as u32` for a `usize` index: keeps the low 32 bits. */
  function AsU32(i: nat): (r: u32)
    ensures i < 0x1_0000_0000 ==> r as int == i
    ensures (r as int - i) % 0x1_0000_0000 == 0
  {
    (i % 0x1_0000_0000) as u32
  }

  /** An `f32`, kept as its bit pattern: the modelled code only copies floats. */
  datatype F32 = F32(bits: u32)

  const F32_ZERO: F32 := F32(0)
  const F32_ONE: F32 := F32(0x3F80_0000)
}
