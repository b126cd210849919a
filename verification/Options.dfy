/** A nullable column or pointer. */
module Options {
  datatype Option<+T> = None | Some(value: T)
}
