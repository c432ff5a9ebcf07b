/** A value that may be absent: Python's `Optional[...]` return of a lookup. */
module Options {

  datatype Option<+T> = None | Some(value: T)
}
