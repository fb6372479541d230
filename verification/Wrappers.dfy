/** Shared vocabulary: optional values, bytes, the bounds of the machine's address space and the smaller of two. */
module Wrappers {

  datatype Option<+T> = None | Some(value: T)

  type Byte = n: nat | n < 256

  /** One past the largest unsigned 64-bit value. */
  const ADDRESS_SPACE: nat := 0x1_0000_0000_0000_0000

  /** An unsigned 64-bit value. */
  type Word64 = n: nat | n < ADDRESS_SPACE

  /** An unsigned 32-bit value. */
  type Word32 = n: nat | n < 0x1_0000_0000

  /** Checked addition of a signed offset: refused when the offset is negative or the sum wraps. */
  function TryAdd(address: Word64, offset: int): Option<Word64> {
    if offset < 0 || offset > ADDRESS_SPACE - 1 - address then None else Some(address + offset)
  }

  /** Checked subtraction of a signed offset. */
  function TrySubtract(address: Word64, offset: int): Option<Word64> {
    if offset < 0 || offset > address then None else Some(address - offset)
  }

  function Min(a: int, b: int): (m: int)
    ensures m == a || m == b
    ensures m <= a && m <= b
  {
    if a <= b then a else b
  }
}
