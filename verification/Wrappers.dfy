// Types shared by every module of the model.
module Wrappers {

  /** A value that may be absent, as in the source's `Option`. */
  datatype Option<+T> = None | Some(value: T)

  /** An unsigned 32-bit word. */
  type u32 = x: nat | x < 0x1_0000_0000

  const U32_MAX: u32 := 0xFFFF_FFFF
  const U32_VALUES: nat := 0x1_0000_0000
}
