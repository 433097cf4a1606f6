/** Fixed-width arithmetic and the result types shared by every module. */
module Prelude {

  datatype Option<+T> = None | Some(value: T)

  datatype Result<+T, +E> = Success(value: T) | Failure(error: E)

  const U32_MAX: nat := 0xFFFF_FFFF
  const U64_MAX: nat := 0xFFFF_FFFF_FFFF_FFFF

  type U32 = n: nat | n <= U32_MAX
  type U64 = n: nat | n <= U64_MAX

  function Min(a: nat, b: nat): nat {
    if a <= b then a else b
  }

  function Max(a: nat, b: nat): nat {
    if a >= b then a else b
  }

  /** `u64::saturating_add`, also `usize::saturating_add` on a 64-bit target. */
  function SatAdd(a: nat, b: nat): U64 {
    Min(a + b, U64_MAX)
  }

  /** `saturating_sub` of any unsigned width. */
  function SatSub(a: nat, b: nat): nat {
    if a >= b then a - b else 0
  }

  function SatInc(a: U64): U64 {
    SatAdd(a, 1)
  }
}
