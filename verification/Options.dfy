module Options {
  /** A value or its absence (SQL NULL, Python None). */
  datatype Option<+T> = None | Some(value: T)
}
