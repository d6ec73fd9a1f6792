/** Values every other module shares. */
module Common {

  datatype Option<+T> = None | Some(value: T)

  /** A UUID as its 128-bit value. PostgreSQL and the `uuid` crate order UUIDs by their bytes,
      most significant first, which is the order of these values. */
  const UUID_LIMIT: int := 0x1_0000_0000_0000_0000_0000_0000_0000_0000

  type Uuid = n: int | 0 <= n < UUID_LIMIT

  const NIL_UUID: Uuid := 0
}
