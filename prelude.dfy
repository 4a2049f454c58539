/** Small shared vocabulary: octets and an optional value. */
module Prelude {

  /** An octet, as Rust's `u8`. */
  newtype byte = x: int | 0 <= x < 256

  datatype Option<+T> = None | Some(value: T)
}
