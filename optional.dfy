/** Python's `None`-or-value results. */
module Optional {

  datatype Option<+T> = None | Some(value: T)
}
