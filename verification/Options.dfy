/** The Some/None datatype used in place of null and undefined. */
module Options {
  datatype Option<+T> = None | Some(value: T)
}
