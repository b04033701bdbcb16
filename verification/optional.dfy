/** An optional value: a C pointer that may be null, or a lookup that may find nothing. */
module Optional {
  datatype Option<+T> = None | Some(value: T)
}
