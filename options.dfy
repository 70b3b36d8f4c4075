/** An optional value: a field that may be absent from a stored document,
    or a lookup that may find nothing. */
module Options {
  datatype Option<+T> = None | Some(value: T)
}
