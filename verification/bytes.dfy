/** Machine integers of the registry: an octet of a UTF-8 string (Rust's
    `str::len()` and every length limit of the registry count these), and the
    `u32` of a record's time to live. */
module Bytes {
  newtype byte = x: int | 0 <= x < 256

  const U32_MAX: int := 0xFFFF_FFFF

  newtype u32 = x: int | 0 <= x <= U32_MAX
}
