/** The shared option type. */
module Common {
  datatype Option<+T> = None | Some(value: T)
}
