/** A value that may be absent: JavaScript's `null` and `undefined`. */
module Options {
  datatype Option<+T> = None | Some(value: T)
}
