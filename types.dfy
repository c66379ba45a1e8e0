/** Primitive types the rules engine is written over. */
module Types {
  /** Rust's `u8`: the storage width of mark codes and status codes. */
  newtype u8 = x: int | 0 <= x < 256

  /** Rust's `Option`. */
  datatype Option<T> = None | Some(value: T)

  /**
   * The caller identity supplied by the contract environment. The rules
   * engine only ever compares two identities for equality.
   */
  type AccountId(==, !new)
}
