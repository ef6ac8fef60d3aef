/** The source's nil-able results. */
module Options {
  datatype Option<+T> = None | Some(value: T)
}
