/** The `None`-or-value type, standing in for Python's `Optional[...]` values. */
module Optional {

  datatype Option<+T> = None | Some(value: T)
}
