/** A value that may be missing: a null pointer, an empty slot, an unsuccessful call. */
module Options {
  datatype Option<T> = None | Some(value: T)
}
