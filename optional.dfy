/** Python's `None`-or-a-value, as used for optional fields and dict lookups. */
module Optional {

  datatype Option<+T> = None | Some(value: T)
}
