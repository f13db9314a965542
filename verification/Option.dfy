/** The optional values used throughout: a nil timestamp, a NULL column, an absent row. */
module Option {
  datatype Option<+T> = None | Some(value: T)
}
