/** Fixed-width integers and the conversions between them, which wrap around. */
module Casts {
  const UINT32_LIMIT: nat := 0x1_0000_0000
  const INT64_MIN := -0x8000_0000_0000_0000
  const INT64_MAX := 0x7FFF_FFFF_FFFF_FFFF

  type U16 = x: int | 0 <= x < 0x1_0000
  type U32 = x: int | 0 <= x < 0x1_0000_0000
  type U64 = x: int | 0 <= x < 0x1_0000_0000_0000_0000
  type Int32 = x: int | -0x8000_0000 <= x < 0x8000_0000
  type Int64 = x: int | INT64_MIN <= x <= INT64_MAX

  function ToUint8(x: int): nat { x % 0x100 }
  function ToUint32(x: int): U32 { x % 0x1_0000_0000 }
  function ToInt32(x: int): Int32 { (x + 0x8000_0000) % 0x1_0000_0000 - 0x8000_0000 }
  function ToUint64(x: Int64): U64 { x % 0x1_0000_0000_0000_0000 }
  function ToInt64(x: U64): Int64 { if x > INT64_MAX then x - 0x1_0000_0000_0000_0000 else x }
}
