/** Types, constants and functions that several parts of the node share. */
module Basics {

  datatype Option<+T> = None | Some(value: T)

  function Min(a: int, b: int): int { if a <= b then a else b }
  function Max(a: int, b: int): int { if a <= b then b else a }

  type Account = int
  type Witness = int

  /** Accounts created at genesis, in creation order. */
  const MINER_ACCOUNT: Account := 0
  const NULL_ACCOUNT: Account := 1
  const TEMP_ACCOUNT: Account := 2
  const INIT_MINER: Account := 3

  const HUNDRED_PERCENT: int := 10000
  const MAX_WITNESSES: nat := 21
  /** time_point_sec::maximum */
  const NEVER: int := 0xFFFF_FFFF
  /** 128-bit arithmetic wraps here. */
  const U128: int := 0x1_0000_0000_0000_0000_0000_0000_0000_0000
}
