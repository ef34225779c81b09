/** Rust's fixed-width unsigned integers and Option, shared by every module of the model. */
module Common {

  /** Rust `u8`. */
  newtype u8 = x: int | 0 <= x < 0x100

  /** Rust `u16`: arithmetic on it that leaves the range is a verification error, which is how
      the model shows that the checksum accumulators never overflow. */
  newtype u16 = x: int | 0 <= x < 0x1_0000

  /** Rust `u32`. */
  newtype u32 = x: int | 0 <= x < 0x1_0000_0000

  const U32_MAX: u32 := 0xFFFF_FFFF

  /** Rust `Option<T>`, also used for a Bevy resource that may be absent. */
  datatype Option<+T> = None | Some(value: T)
}
