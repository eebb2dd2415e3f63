/** Small shared vocabulary: optional values and bytes. */
module Common {

  datatype Option<+T> = None | Some(value: T)

  /** An octet, as Python's `bytes` holds them. */
  type Byte = x: int | 0 <= x < 256
}
