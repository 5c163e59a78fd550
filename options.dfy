/** An optional value: a field of a decoded response that may be absent, or the
    title a record without a delimiter does not have. */
module Options {
  datatype Option<+T> = None | Some(value: T)
}
