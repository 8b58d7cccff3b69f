/** The optional values of nullable columns and of lookups that may find nothing. */
module Options {
  datatype Option<T> = None | Some(value: T)
}
