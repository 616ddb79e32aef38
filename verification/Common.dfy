/** Value types shared by the models of every crate. */
module Common {

  datatype Option<+T> = None | Some(value: T)

  datatype Result<+T, +E> = Ok(value: T) | Err(error: E)

  /** The machine integers. Where a build checks for overflow a sum past its
      limit panics; the models are of a build that does not, where it wraps. */
  const U32_LIMIT: nat := 0x1_0000_0000
  const U64_LIMIT: nat := 0x1_0000_0000_0000_0000

  type U32 = n: nat | n < U32_LIMIT
  type U64 = n: nat | n < U64_LIMIT

  /** A 128-bit identifier. Only its identity and the order of its big-endian bytes matter. */
  type Uuid = nat
}
