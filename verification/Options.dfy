/** A value that may not be there. */
module Options {
  datatype Option<+T> = None | Some(value: T)
}
