/** Small types shared by the other modules. */
module Prelude {
  datatype Option<+T> = None | Some(value: T)

  /** One octet of a Go `byte` slice. */
  type byte = b: int | 0 <= b < 256

  const TWO16 := 0x1_0000
  const TWO32 := 0x1_0000_0000

  /** A Go `uint16`. */
  type u16 = n: int | 0 <= n < TWO16

  /** A Go `uint32`. */
  type u32 = n: int | 0 <= n < TWO32
}
