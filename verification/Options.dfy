/** An optional value: a nil pointer, a missing map entry, or an error without its text. */
module Options {
  datatype Option<+T> = None | Some(value: T)
}
