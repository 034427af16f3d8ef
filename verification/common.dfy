/** Small shared datatypes. */
module Common {

  /** A value that may be absent: a failed parse, a `list.remove` that would raise. */
  datatype Option<+T> = None | Some(value: T)

}
