module Options {
  datatype Option<+T> = None | Some(value: T)

  /** A Go (value, error) pair in which exactly one side is meaningful. */
  datatype Result<+T> = Ok(value: T) | Refused
}
