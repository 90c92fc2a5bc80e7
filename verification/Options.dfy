/** An optional value: Go's `nil` and `ok` results. */
module Options {

  datatype Option<+T> = None | Some(value: T)
}
