/** The fixed-width integers of the Rust sources. */
module Words {
  const I64_MIN := -0x8000_0000_0000_0000
  const I64_END := 0x8000_0000_0000_0000
  const U64_END := 0x1_0000_0000_0000_0000
  const U32_END := 0x1_0000_0000

  type i64 = x: int | -0x8000_0000_0000_0000 <= x < 0x8000_0000_0000_0000
  type u64 = x: int | 0 <= x < 0x1_0000_0000_0000_0000
  type u32 = x: int | 0 <= x < 0x1_0000_0000
}
