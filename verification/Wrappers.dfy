/** Optional values, results with an error, and the machine word used by the node. */
module Wrappers {

  datatype Option<+T> = None | Some(value: T)

  datatype Result<+T, +E> = Ok(value: T) | Err(error: E)

  /** 2^64, the modulus of Haskell's Word64 and of a 64-bit usize. */
  const WORD64: nat := 0x1_0000_0000_0000_0000

  type Word64 = w: int | 0 <= w < WORD64

  /** Addition of two words, wrapping once when the sum does not fit. */
  function AddWords(a: Word64, b: Word64): Word64
  {
    if a + b < WORD64 then a + b else a + b - WORD64
  }

  /** 2^32, the modulus of Word32 and u32. */
  const WORD32: nat := 0x1_0000_0000

  type Word32 = w: int | 0 <= w < WORD32
}
