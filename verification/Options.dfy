/** A value that may be absent: a nil pointer, or a resource that is not found. */
module Options {
  datatype Option<+T> = None | Some(value: T)
}
