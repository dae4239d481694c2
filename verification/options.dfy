/** A value that may be absent: Go's `v, ok` and nil results. */
module Options {
  datatype Option<+T> = None | Some(value: T)
}
