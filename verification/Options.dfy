/** The conventional Some/None datatype, for the source's `None` results. */
module Options {
  datatype Option<+T> = None | Some(value: T)
}
