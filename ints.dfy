/** The .NET integer widths the model needs. */
module Ints {
  const Int32Min: int := -0x8000_0000
  const Int32Max: int := 0x7FFF_FFFF

  /** System.Int32 */
  newtype int32 = x: int | -0x8000_0000 <= x < 0x8000_0000

  /** System.Int64 */
  newtype int64 = x: int | -0x8000_0000_0000_0000 <= x < 0x8000_0000_0000_0000
}
