/** Small datatypes shared by every other module. */
module Common {
  /** A value that may be absent: `undefined` or `null` in the program. */
  datatype Option<+T> = None | Some(value: T)
}
