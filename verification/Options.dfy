/** The absent-or-present value used for Go's nil results. */
module Options {
  datatype Option<+T> = None | Some(value: T)
}
