/** Shared building blocks: an optional value and the fixed-width integer ranges used by the toolchain. */
module Common {
  datatype Option<T> = None | Some(value: T)

  const I64_MIN: int := -0x8000_0000_0000_0000
  const I64_MAX: int := 0x7FFF_FFFF_FFFF_FFFF
  const U32_MAX: int := 0xFFFF_FFFF

  /** Rust `i64`: the payload of integer values and integer literals. */
  type i64 = x: int | -0x8000_0000_0000_0000 <= x <= 0x7FFF_FFFF_FFFF_FFFF

  /** Rust `u32`: the number carried by an entity token. */
  type u32 = x: int | 0 <= x <= 0xFFFF_FFFF
}
