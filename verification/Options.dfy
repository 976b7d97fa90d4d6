/** A value that may be absent: a NULL column, a lock nobody holds, a refusal not raised. */
module Options {
  datatype Option<T> = None | Some(value: T)
}
