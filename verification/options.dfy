/** A value that may be missing: a NULL pointer, a failed call, a refused description. */
module Options {
  datatype Option<+T> = None | Some(value: T)
}
