/** Option and Result, shared by every module. */
module Common {

  datatype Option<+T> = None | Some(value: T)

  /** A value, or the error the source raises. */
  datatype Result<+T, +E> = Ok(value: T) | Err(error: E)

  const UINT256_MAX: nat := 0xffffffff_ffffffff_ffffffff_ffffffff_ffffffff_ffffffff_ffffffff_ffffffff
  const ADDRESS_MAX: nat := 0xffffffff_ffffffff_ffffffff_ffffffff_ffffffff

  type Uint256 = n: nat | n <= UINT256_MAX

  /** A 20-byte account or contract address, as a number. */
  type Address = n: nat | n <= ADDRESS_MAX

  /** A 32-byte transaction hash, block hash or nonce, as a number. */
  type Hash = n: nat | n <= UINT256_MAX
}
