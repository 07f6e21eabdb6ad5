/** A value that may be missing: a null pointer, an empty slot, a failed call. */
module Options {
  datatype Option<+T> = None | Some(value: T)
}
