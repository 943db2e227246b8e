/** The optional value that lookups return. */
module Options {
  datatype Option<+T> = None | Some(value: T)
}
