/** Machine integer widths and the small wrapper types shared by every module. */
module Types {

  /** Rust's `u8`, `u16`, `u32` and `u64` (and `usize` on 64-bit targets). */
  type u8 = x: int | 0 <= x < 0x100
  type u16 = x: int | 0 <= x < 0x1_0000
  type u32 = x: int | 0 <= x < 0x1_0000_0000
  type u64 = x: int | 0 <= x < 0x1_0000_0000_0000_0000

  datatype Option<T> = None | Some(value: T)

  /** Rust's `Result<T, E>`. */
  datatype Result<T, E> = Ok(value: T) | Err(error: E)

  /** The cargo features that change the behaviour of the modelled code. */
  datatype Features = Features(fpSimd: bool, tls: bool, uspace: bool)

  /** The truncating cast `x as u8`, which keeps the low eight bits. */
  function LowByte(x: u64): u8
  {
    x % 0x100
  }
}
