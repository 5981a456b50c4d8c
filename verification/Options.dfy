/** Values that may be absent, as in the sources' `T | null | undefined`. */
module Options {
  datatype Option<+T> = None | Some(value: T)
}
